/** The retention job: three cascading deletes driven by a CASE expression built from the policies. */
module Retention {
  import opened Prelude

  // ---------- the database ----------

  /** A result's primary key. Nothing in the schema makes `id` unique on its own. */
  datatype Key = Key(parent: string, id: string)

  datatype Record = Record(
    parent: string, resultId: string, id: string, kind: string, updated: int,
    labels: map<string, string>, annotations: map<string, string>, reason: Option<string>)

  datatype Database = Database(results: set<Key>, records: set<Record>)

  function Owner(r: Record): Key { Key(r.parent, r.resultId) }

  /** The foreign key from records to results. */
  ghost predicate Valid(db: Database) { forall r :: r in db.records ==> Owner(r) in db.results }

  const PIPELINE_RUN := "tekton.dev/v1.PipelineRun"
  const TASK_RUN := "tekton.dev/v1.TaskRun"
  const CUSTOM_RUN := "tekton.dev/v1beta1.CustomRun"

  // ---------- policies ----------

  datatype Selector = Selector(
    namespaces: seq<string>, labels: map<string, seq<string>>, annotations: map<string, seq<string>>, statuses: seq<string>)

  /** `retention` is None where the policy's duration does not parse. */
  datatype Policy = Policy(selector: Selector, retention: Option<int>)

  /** What a policy author means: every listed restriction is met, and what is absent meets none. */
  predicate Fits(s: Selector, r: Record) {
    && (s.namespaces != [] ==> r.parent in s.namespaces)
    && (forall k :: k in s.labels ==> k in r.labels && r.labels[k] in s.labels[k])
    && (forall k :: k in s.annotations ==> k in r.annotations && r.annotations[k] in s.annotations[k])
    && (s.statuses != [] ==> r.reason.Some? && r.reason.value in s.statuses)
  }

  /** The retention of the first policy that fits, or the default. */
  function Period(ps: seq<Policy>, standard: int, r: Record): int {
    if ps == [] then standard
    else if Fits(ps[0].selector, r) && ps[0].retention.Some? then ps[0].retention.value
    else Period(ps[1..], standard, r)
  }

  /** The record is older than its policy allows. */
  predicate Expired(ps: seq<Policy>, standard: int, now: int, r: Record) {
    r.updated < now - Period(ps, standard, r)
  }

  // ---------- the SQL the job builds, and its meaning ----------

  datatype Column = Parent | Label(key: string) | Annotation(key: string) | Reason

  /** `column IN (values)`; PostgreSQL rejects an empty list. */
  datatype Cond = In(column: Column, values: seq<string>)

  /** An empty clause stands for 1=1. */
  type Clause = seq<Cond>

  datatype Case = Case(whens: seq<(Clause, int)>, otherwise: int)

  datatype Truth = True | False | Null

  function Value(c: Column, r: Record): Option<string> {
    match c
    case Parent => Some(r.parent)
    case Label(k) => if k in r.labels then Some(r.labels[k]) else None
    case Annotation(k) => if k in r.annotations then Some(r.annotations[k]) else None
    case Reason => r.reason
  }

  function CondTruth(c: Cond, r: Record): Truth {
    match Value(c.column, r)
    case None => Null
    case Some(v) => if v in c.values then True else False
  }

  function And(a: Truth, b: Truth): Truth {
    if a.False? || b.False? then False else if a.Null? || b.Null? then Null else True
  }

  function ClauseTruth(c: Clause, r: Record): Truth {
    if c == [] then True else And(CondTruth(c[0], r), ClauseTruth(c[1..], r))
  }

  /** CASE takes the first WHEN that is true; a NULL test is not true. */
  function CasePeriod(c: Case, r: Record): int
    decreases |c.whens|
  {
    if c.whens == [] then c.otherwise
    else if ClauseTruth(c.whens[0].0, r).True? then c.whens[0].1
    else CasePeriod(Case(c.whens[1..], c.otherwise), r)
  }

  predicate WellFormedClause(c: Clause) { forall i :: 0 <= i < |c| ==> c[i].values != [] }

  predicate WellFormed(c: Case) { forall i :: 0 <= i < |c.whens| ==> WellFormedClause(c.whens[i].0) }

  // ---------- building it ----------

  lemma {:induction false} ClauseTrueIff(c: Clause, r: Record)
    ensures ClauseTruth(c, r).True? <==> forall i :: 0 <= i < |c| ==> CondTruth(c[i], r).True?
  {
    if c != [] {
      ClauseTrueIff(c[1..], r);
      assert forall i :: 0 < i < |c| ==> c[i] == c[1..][i - 1];
    }
  }

  lemma ClauseAppend(c: Clause, x: Cond, r: Record)
    ensures ClauseTruth(c + [x], r).True? <==> ClauseTruth(c, r).True? && CondTruth(x, r).True?
  {
    ClauseTrueIff(c, r);
    ClauseTrueIff(c + [x], r);
    assert (c + [x])[|c|] == x;
    assert forall i :: 0 <= i < |c| ==> (c + [x])[i] == c[i];
  }

  predicate EntriesFit(m: map<string, seq<string>>, keys: set<string>, have: map<string, string>) {
    forall k :: k in keys && k in m ==> k in have && have[k] in m[k]
  }

  predicate EntriesFilled(m: map<string, seq<string>>) { forall k :: k in m ==> m[k] != [] }

  /** No restriction names an empty list of label or annotation values. */
  predicate Filled(s: Selector) { EntriesFilled(s.labels) && EntriesFilled(s.annotations) }

  /** One condition per map entry, in whatever order the map is ranged over. */
  method AddEntries(c0: Clause, m: map<string, seq<string>>, isLabel: bool) returns (c: Clause)
    ensures forall r ::
      ClauseTruth(c, r).True? <==>
        (ClauseTruth(c0, r).True? && EntriesFit(m, m.Keys, if isLabel then r.labels else r.annotations))
    ensures WellFormedClause(c) <==> WellFormedClause(c0) && EntriesFilled(m)
  {
    c := c0;
    var todo := m.Keys;
    while todo != {}
      invariant todo <= m.Keys
      invariant forall r ::
        ClauseTruth(c, r).True? <==>
          (ClauseTruth(c0, r).True? && EntriesFit(m, m.Keys - todo, if isLabel then r.labels else r.annotations))
      invariant WellFormedClause(c) <==> WellFormedClause(c0) && forall k :: k in m.Keys - todo ==> m[k] != []
    {
      var k :| k in todo;
      var x := In(if isLabel then Label(k) else Annotation(k), m[k]);
      forall r ensures ClauseTruth(c + [x], r).True? <==> ClauseTruth(c, r).True? && CondTruth(x, r).True? {
        ClauseAppend(c, x, r);
      }
      WellFormedAppend(c, x);
      c := c + [x];
      todo := todo - {k};
    }
  }

  lemma WellFormedAppend(c: Clause, x: Cond)
    ensures WellFormedClause(c + [x]) <==> WellFormedClause(c) && x.values != []
  {
    assert (c + [x])[|c|] == x;
    assert forall i :: 0 <= i < |c| ==> (c + [x])[i] == c[i];
  }

  lemma AppendAll(c: Clause, x: Cond)
    ensures forall r :: ClauseTruth(c + [x], r).True? <==> ClauseTruth(c, r).True? && CondTruth(x, r).True?
    ensures WellFormedClause(c + [x]) <==> WellFormedClause(c) && x.values != []
  {
    forall r ensures ClauseTruth(c + [x], r).True? <==> ClauseTruth(c, r).True? && CondTruth(x, r).True? {
      ClauseAppend(c, x, r);
    }
    WellFormedAppend(c, x);
  }

  /** A clause that is true of exactly the records the selector fits. */
  method BuildWhereClause(s: Selector) returns (c: Clause)
    ensures forall r :: ClauseTruth(c, r).True? <==> Fits(s, r)
    ensures WellFormedClause(c) <==> Filled(s)
  {
    c := [];
    if |s.namespaces| > 0 {
      AppendAll(c, In(Parent, s.namespaces));
      c := c + [In(Parent, s.namespaces)];
    }
    c := AddEntries(c, s.labels, true);
    c := AddEntries(c, s.annotations, false);
    if |s.statuses| > 0 {
      AppendAll(c, In(Reason, s.statuses));
      c := c + [In(Reason, s.statuses)];
    }
  }

  lemma {:induction false} PeriodAppend(ps: seq<Policy>, p: Policy, standard: int, r: Record)
    ensures Period(ps + [p], standard, r) == Period(ps, Period([p], standard, r), r)
  {
    if ps != [] {
      assert (ps + [p])[1..] == ps[1..] + [p];
      PeriodAppend(ps[1..], p, standard, r);
    } else {
      assert ps + [p] == [p];
    }
  }

  lemma {:induction false} CaseAppend(whens: seq<(Clause, int)>, w: (Clause, int), otherwise: int, r: Record)
    ensures CasePeriod(Case(whens + [w], otherwise), r) ==
      CasePeriod(Case(whens, if ClauseTruth(w.0, r).True? then w.1 else otherwise), r)
  {
    if whens != [] {
      assert (whens + [w])[1..] == whens[1..] + [w];
      CaseAppend(whens[1..], w, otherwise, r);
    } else {
      assert whens + [w] == [w];
    }
  }

  /** The WHENs built so far pick the same period as the policies they stand for, whatever follows. */
  ghost predicate Renders(whens: seq<(Clause, int)>, ps: seq<Policy>) {
    forall r: Record, d: int :: CasePeriod(Case(whens, d), r) == Period(ps, d, r)
  }

  lemma RendersNext(whens: seq<(Clause, int)>, ps: seq<Policy>, c: Clause, p: Policy)
    requires Renders(whens, ps) && p.retention.Some?
    requires forall r :: ClauseTruth(c, r).True? <==> Fits(p.selector, r)
    ensures Renders(whens + [(c, p.retention.value)], ps + [p])
  {
    forall r: Record, d: int
      ensures CasePeriod(Case(whens + [(c, p.retention.value)], d), r) == Period(ps + [p], d, r)
    {
      CaseAppend(whens, (c, p.retention.value), d, r);
      PeriodAppend(ps, p, d, r);
      assert [p][1..] == [];
      assert Period([p], d, r) == if Fits(p.selector, r) then p.retention.value else d;
    }
  }

  lemma RendersNothing()
    ensures Renders([], [])
  {
  }

  predicate Parseable(ps: seq<Policy>) { forall i :: 0 <= i < |ps| ==> ps[i].retention.Some? }

  predicate AllFilled(ps: seq<Policy>) { forall i :: 0 <= i < |ps| ==> Filled(ps[i].selector) }

  /** CASE gives every record the period of the first policy that fits it; it is refused if a duration does not parse. */
  method BuildCaseStatement(ps: seq<Policy>, standard: int) returns (c: Option<Case>)
    ensures c.Some? <==> Parseable(ps)
    ensures c.Some? ==> forall r :: CasePeriod(c.value, r) == Period(ps, standard, r)
    ensures c.Some? ==> (WellFormed(c.value) <==> AllFilled(ps))
  {
    RendersNothing();
    if |ps| == 0 { return Some(Case([], standard)); }
    var whens := [];
    for i := 0 to |ps|
      invariant Parseable(ps[..i]) && Renders(whens, ps[..i])
      invariant WellFormed(Case(whens, standard)) <==> AllFilled(ps[..i])
    {
      assert ps[..i + 1] == ps[..i] + [ps[i]];
      var clause := BuildWhereClause(ps[i].selector);
      if ps[i].retention.None? { return None; }
      RendersNext(whens, ps[..i], clause, ps[i]);
      FilledNext(whens, ps[..i], clause, ps[i], standard);
      whens := whens + [(clause, ps[i].retention.value)];
    }
    assert ps[..|ps|] == ps;
    return Some(Case(whens, standard));
  }

  lemma FilledNext(whens: seq<(Clause, int)>, ps: seq<Policy>, c: Clause, p: Policy, d: int)
    requires p.retention.Some?
    requires WellFormed(Case(whens, d)) <==> AllFilled(ps)
    requires WellFormedClause(c) <==> Filled(p.selector)
    ensures WellFormed(Case(whens + [(c, p.retention.value)], d)) <==> AllFilled(ps + [p])
  {
    var whens', ps' := whens + [(c, p.retention.value)], ps + [p];
    assert whens'[|whens|].0 == c && ps'[|ps|] == p;
    assert forall i :: 0 <= i < |whens| ==> whens'[i] == whens[i];
    assert forall i :: 0 <= i < |ps| ==> ps'[i] == ps[i];
  }

  // ---------- deleting ----------

  predicate HasPipelineRun(db: Database, owner: Key) {
    exists r :: r in db.records && r.kind == PIPELINE_RUN && Owner(r) == owner
  }

  /** The sub-query's row test: type, expiry under the CASE expression, and no PipelineRun beside a child. */
  predicate Due(db: Database, c: Case, now: int, kind: string, r: Record) {
    && r.kind == kind
    && r.updated < now - CasePeriod(c, r)
    && (kind == TASK_RUN || kind == CUSTOM_RUN ==> !HasPipelineRun(db, Owner(r)))
  }

  function DueIds(db: Database, c: Case, now: int, kind: string): set<string> {
    set r | r in db.records && Due(db, c, now, kind, r) :: r.resultId
  }

  /** DELETE by id alone; records go with the result they reference. */
  function Without(db: Database, ids: set<string>): Database {
    var results := set x | x in db.results && x.id !in ids;
    Database(results, set r | r in db.records && Owner(r) in results)
  }

  function Cleanup(db: Database, c: Case, now: int, kind: string): Database {
    Without(db, DueIds(db, c, now, kind))
  }

  // ---------- deletes in sequence are one delete ----------

  lemma WithoutKeepsValid(db: Database, ids: set<string>)
    ensures Valid(Without(db, ids))
  {
  }

  lemma RecordStaysIff(db: Database, ids: set<string>, r: Record)
    requires Valid(db)
    ensures r in Without(db, ids).records <==> r in db.records && r.resultId !in ids
  {
    if r in db.records { assert Owner(r) in db.results; }
  }

  lemma WithoutTwice(db: Database, a: set<string>, b: set<string>)
    requires Valid(db)
    ensures Without(Without(db, a), b) == Without(db, a + b)
  {
    var l, r := Without(Without(db, a), b), Without(db, a + b);
    WithoutKeepsValid(db, a);
    assert l.results == r.results;
    forall x ensures x in l.records <==> x in r.records {
      RecordStaysIff(db, a, x);
      RecordStaysIff(Without(db, a), b, x);
      RecordStaysIff(db, a + b, x);
    }
    assert l.records == r.records;
  }

  /** A delete leaves every other result's records alone, so what was due there stays due. */
  lemma StaysDueIff(db: Database, ids: set<string>, c: Case, now: int, kind: string, r: Record)
    requires Valid(db) && r in db.records && r.resultId !in ids
    ensures Due(Without(db, ids), c, now, kind, r) <==> Due(db, c, now, kind, r)
  {
    var after := Without(db, ids);
    if HasPipelineRun(after, Owner(r)) {
      var p :| p in after.records && p.kind == PIPELINE_RUN && Owner(p) == Owner(r);
      RecordStaysIff(db, ids, p);
    }
    if HasPipelineRun(db, Owner(r)) {
      var p :| p in db.records && p.kind == PIPELINE_RUN && Owner(p) == Owner(r);
      RecordStaysIff(db, ids, p);
    }
  }

  lemma DueAfter(db: Database, ids: set<string>, c: Case, now: int, kind: string)
    requires Valid(db)
    ensures DueIds(Without(db, ids), c, now, kind) == DueIds(db, c, now, kind) - ids
  {
    var after := Without(db, ids);
    forall i ensures i in DueIds(after, c, now, kind) <==> i in DueIds(db, c, now, kind) - ids {
      if i in DueIds(after, c, now, kind) {
        var r :| r in after.records && Due(after, c, now, kind, r) && r.resultId == i;
        RecordStaysIff(db, ids, r);
        StaysDueIff(db, ids, c, now, kind, r);
      }
      if i in DueIds(db, c, now, kind) - ids {
        var r :| r in db.records && Due(db, c, now, kind, r) && r.resultId == i;
        RecordStaysIff(db, ids, r);
        StaysDueIff(db, ids, c, now, kind, r);
      }
    }
  }

  /** After any deletes, one more has the effect it would have had on the original, added to theirs. */
  lemma CleanupAfter(db: Database, ids: set<string>, c: Case, now: int, kind: string)
    requires Valid(db)
    ensures Cleanup(Without(db, ids), c, now, kind) == Without(db, ids + DueIds(db, c, now, kind))
  {
    DueAfter(db, ids, c, now, kind);
    WithoutTwice(db, ids, DueIds(db, c, now, kind) - ids);
    assert ids + (DueIds(db, c, now, kind) - ids) == ids + DueIds(db, c, now, kind);
  }

  lemma WithoutNothing(db: Database)
    requires Valid(db)
    ensures Without(db, {}) == db
  {
    assert Without(db, {}).results == db.results;
    forall r ensures r in Without(db, {}).records <==> r in db.records { RecordStaysIff(db, {}, r); }
    assert Without(db, {}).records == db.records;
  }

  // ---------- in the policies' own terms ----------

  // `at` gives the time at which the statement for each record type reads NOW().

  /** Ids of the results that records of the given types condemn. */
  function Doomed(db: Database, ps: seq<Policy>, standard: int, at: string -> int, kinds: set<string>): set<string> {
    set r | r in db.records && r.kind in kinds && Expired(ps, standard, at(r.kind), r)
            && (r.kind == TASK_RUN || r.kind == CUSTOM_RUN ==> !HasPipelineRun(db, Owner(r))) :: r.resultId
  }

  ghost predicate Prices(c: Case, ps: seq<Policy>, standard: int) {
    forall r :: CasePeriod(c, r) == Period(ps, standard, r)
  }

  lemma DoomedNext(db: Database, c: Case, ps: seq<Policy>, standard: int, at: string -> int, kinds: set<string>, kind: string)
    requires Prices(c, ps, standard)
    ensures Doomed(db, ps, standard, at, kinds) + DueIds(db, c, at(kind), kind) == Doomed(db, ps, standard, at, kinds + {kind})
  {
    var l, r := Doomed(db, ps, standard, at, kinds) + DueIds(db, c, at(kind), kind), Doomed(db, ps, standard, at, kinds + {kind});
    forall i ensures i in l <==> i in r {
      if i in DueIds(db, c, at(kind), kind) {
        var x :| x in db.records && Due(db, c, at(kind), kind, x) && x.resultId == i;
        assert CasePeriod(c, x) == Period(ps, standard, x);
      }
      if i in r && i !in Doomed(db, ps, standard, at, kinds) {
        var x :| x in db.records && x.kind in kinds + {kind} && Expired(ps, standard, at(x.kind), x)
          && (x.kind == TASK_RUN || x.kind == CUSTOM_RUN ==> !HasPipelineRun(db, Owner(x))) && x.resultId == i;
        assert CasePeriod(c, x) == Period(ps, standard, x);
        assert Due(db, c, at(kind), kind, x);
      }
    }
  }

  predicate Refused(c: Case, kind: string, down: set<string>) { !WellFormed(c) || kind in down }

  /** Some record of the type, under a result of this id, is due. */
  predicate Condemned(db: Database, c: Case, now: int, kind: string, id: string) {
    exists r :: r in db.records && r.resultId == id && Due(db, c, now, kind, r)
  }

  lemma CondemnedIff(db: Database, c: Case, now: int, kind: string)
    ensures forall id :: id in DueIds(db, c, now, kind) <==> Condemned(db, c, now, kind, id)
  {
  }

  const ALL_KINDS := {PIPELINE_RUN, TASK_RUN, CUSTOM_RUN}

  class Agent {
    var db: Database

    /**
     A result stays exactly when no record under its id is due, or the statement was refused; a record stays
     exactly when its result does. `down` lists the record types whose statement the database refuses for a
     reason of its own; a malformed CASE is refused too.
     */
    method CleanupResults(c: Case, now: int, kind: string, down: set<string>)
      requires Valid(db)
      modifies this
      ensures Valid(db)
      ensures forall x :: x in db.results <==>
        x in old(db).results && (Refused(c, kind, down) || !Condemned(old(db), c, now, kind, x.id))
      ensures forall r :: r in db.records <==> r in old(db).records && Owner(r) in db.results
      ensures db == if Refused(c, kind, down) then old(db) else Cleanup(old(db), c, now, kind)
    {
      if !Refused(c, kind, down) {
        CondemnedIff(db, c, now, kind);
        db := Cleanup(db, c, now, kind);
      }
    }

    /**
     The whole job is one delete of the results condemned by the policies, less the record types that
     failed. One duration that does not parse, or one empty value list, and nothing is deleted at all.
     */
    method Job(ps: seq<Policy>, standard: int, at: string -> int, down: set<string>)
      requires Valid(db)
      modifies this
      ensures Valid(db)
      ensures db == if Parseable(ps) && AllFilled(ps)
        then Without(old(db), Doomed(old(db), ps, standard, at, ALL_KINDS - down)) else old(db)
    {
      var c := BuildCaseStatement(ps, standard);
      if c.None? { return; }
      Chain(db, c.value, ps, standard, at, down);
      assert forall kind :: Refused(c.value, kind, down) <==> !AllFilled(ps) || kind in down;
      CleanupResults(c.value, at(PIPELINE_RUN), PIPELINE_RUN, down);
      CleanupResults(c.value, at(TASK_RUN), TASK_RUN, down);
      CleanupResults(c.value, at(CUSTOM_RUN), CUSTOM_RUN, down);
    }
  }

  function Attempt(db: Database, c: Case, at: string -> int, kind: string, down: set<string>): Database {
    if kind !in down then Cleanup(db, c, at(kind), kind) else db
  }

  lemma AttemptNext(db: Database, c: Case, ps: seq<Policy>, standard: int, at: string -> int, kinds: set<string>, kind: string, down: set<string>)
    requires Valid(db) && Prices(c, ps, standard)
    ensures Attempt(Without(db, Doomed(db, ps, standard, at, kinds - down)), c, at, kind, down) ==
      Without(db, Doomed(db, ps, standard, at, (kinds + {kind}) - down))
  {
    if kind !in down {
      CleanupAfter(db, Doomed(db, ps, standard, at, kinds - down), c, at(kind), kind);
      DoomedNext(db, c, ps, standard, at, kinds - down, kind);
      assert (kinds - down) + {kind} == (kinds + {kind}) - down;
    } else {
      assert kinds - down == (kinds + {kind}) - down;
    }
  }

  lemma Chain(db: Database, c: Case, ps: seq<Policy>, standard: int, at: string -> int, down: set<string>)
    requires Valid(db) && Prices(c, ps, standard)
    ensures var a := Attempt(Attempt(Attempt(db, c, at, PIPELINE_RUN, down), c, at, TASK_RUN, down), c, at, CUSTOM_RUN, down);
      Valid(a) && a == Without(db, Doomed(db, ps, standard, at, ALL_KINDS - down))
  {
    WithoutNothing(db);
    assert {} - down == {} && Doomed(db, ps, standard, at, {}) == {};
    AttemptNext(db, c, ps, standard, at, {}, PIPELINE_RUN, down);
    AttemptNext(db, c, ps, standard, at, {PIPELINE_RUN}, TASK_RUN, down);
    AttemptNext(db, c, ps, standard, at, {PIPELINE_RUN, TASK_RUN}, CUSTOM_RUN, down);
    assert {} + {PIPELINE_RUN} == {PIPELINE_RUN} && {PIPELINE_RUN} + {TASK_RUN} == {PIPELINE_RUN, TASK_RUN};
    assert {PIPELINE_RUN, TASK_RUN} + {CUSTOM_RUN} == ALL_KINDS;
    WithoutKeepsValid(db, Doomed(db, ps, standard, at, ALL_KINDS - down));
  }

  // ---------- what the job means ----------

  /** Deletes for a list of record types, one after the other. */
  function Sweep(db: Database, c: Case, at: string -> int, kinds: seq<string>): Database
    decreases |kinds|
  {
    if kinds == [] then db else Cleanup(Sweep(db, c, at, kinds[..|kinds| - 1]), c, at(kinds[|kinds| - 1]), kinds[|kinds| - 1])
  }

  /** Any list of deletes, each type at its own time, depends only on which types are in it: order and repeats do not matter. */
  lemma {:induction false} SweepIsOneDelete(db: Database, c: Case, ps: seq<Policy>, standard: int, at: string -> int, kinds: seq<string>)
    requires Valid(db) && Prices(c, ps, standard)
    ensures Sweep(db, c, at, kinds) == Without(db, Doomed(db, ps, standard, at, set k | k in kinds))
  {
    var all := set k | k in kinds;
    if kinds == [] {
      assert all == {} && Doomed(db, ps, standard, at, {}) == {};
      WithoutNothing(db);
    } else {
      var n := |kinds| - 1;
      var before := set k | k in kinds[..n];
      SweepIsOneDelete(db, c, ps, standard, at, kinds[..n]);
      assert kinds == kinds[..n] + [kinds[n]];
      assert before + {kinds[n]} == all;
      CleanupAfter(db, Doomed(db, ps, standard, at, before), c, at(kinds[n]), kinds[n]);
      DoomedNext(db, c, ps, standard, at, before, kinds[n]);
    }
  }

  predicate HasExpired(db: Database, ps: seq<Policy>, standard: int, at: string -> int, x: Key, kinds: set<string>) {
    exists r :: r in db.records && Owner(r) == x && r.kind in kinds && Expired(ps, standard, at(r.kind), r)
  }

  /** A result goes iff it has an expired PipelineRun, or has none and has an expired TaskRun or CustomRun. */
  predicate Goes(db: Database, ps: seq<Policy>, standard: int, at: string -> int, x: Key) {
    || HasExpired(db, ps, standard, at, x, {PIPELINE_RUN})
    || (!HasPipelineRun(db, x) && HasExpired(db, ps, standard, at, x, {TASK_RUN, CUSTOM_RUN}))
  }

  /** Exactly the ids of results that go are condemned. */
  lemma DoomedIff(db: Database, ps: seq<Policy>, standard: int, at: string -> int, id: string)
    requires Valid(db)
    ensures id in Doomed(db, ps, standard, at, ALL_KINDS) <==>
      exists y :: y in db.results && y.id == id && Goes(db, ps, standard, at, y)
  {
    if id in Doomed(db, ps, standard, at, ALL_KINDS) {
      var r :| r in db.records && r.kind in ALL_KINDS && Expired(ps, standard, at(r.kind), r)
        && (r.kind == TASK_RUN || r.kind == CUSTOM_RUN ==> !HasPipelineRun(db, Owner(r))) && r.resultId == id;
      assert Owner(r) in db.results && Owner(r).id == id;
      assert Goes(db, ps, standard, at, Owner(r));
    }
    forall y | y in db.results && y.id == id && Goes(db, ps, standard, at, y)
      ensures id in Doomed(db, ps, standard, at, ALL_KINDS)
    {
      if HasExpired(db, ps, standard, at, y, {PIPELINE_RUN}) {
        var r :| r in db.records && Owner(r) == y && r.kind in {PIPELINE_RUN} && Expired(ps, standard, at(r.kind), r);
        KindsDiffer();
      } else {
        var r :| r in db.records && Owner(r) == y && r.kind in {TASK_RUN, CUSTOM_RUN} && Expired(ps, standard, at(r.kind), r);
      }
    }
  }

  lemma KindsDiffer()
    ensures PIPELINE_RUN != TASK_RUN && PIPELINE_RUN != CUSTOM_RUN
  {
    assert |PIPELINE_RUN| == 25 && |TASK_RUN| == 21 && |CUSTOM_RUN| == 28;
  }

  /** What an operator expects: the results that go, and their records, are deleted and nothing else is. */
  function Expected(db: Database, ps: seq<Policy>, standard: int, at: string -> int): Database {
    var results := set x | x in db.results && !Goes(db, ps, standard, at, x);
    Database(results, set r | r in db.records && Owner(r) in results)
  }

  /** No result that stays shares its id with one that goes. */
  predicate NoCollateral(db: Database, ps: seq<Policy>, standard: int, at: string -> int) {
    forall x, y :: x in db.results && y in db.results && x.id == y.id ==>
      (Goes(db, ps, standard, at, x) <==> Goes(db, ps, standard, at, y))
  }

  /** The job meets the expectation exactly when no result shares its id with one of a different fate. */
  lemma JobIsAsExpectedIff(db: Database, ps: seq<Policy>, standard: int, at: string -> int)
    requires Valid(db)
    ensures Without(db, Doomed(db, ps, standard, at, ALL_KINDS)) == Expected(db, ps, standard, at)
      <==> NoCollateral(db, ps, standard, at)
  {
    var got, want := Without(db, Doomed(db, ps, standard, at, ALL_KINDS)), Expected(db, ps, standard, at);
    forall x | x in db.results
      ensures x in got.results <==> !exists y :: y in db.results && y.id == x.id && Goes(db, ps, standard, at, y)
    {
      DoomedIff(db, ps, standard, at, x.id);
    }
    if NoCollateral(db, ps, standard, at) {
      assert got.results == want.results;
    } else {
      var x, y :| x in db.results && y in db.results && x.id == y.id
        && Goes(db, ps, standard, at, x) && !Goes(db, ps, standard, at, y);
      assert y in want.results && y !in got.results;
    }
  }

  predicate UniqueIds(db: Database) {
    forall x, y :: x in db.results && y in db.results && x.id == y.id ==> x == y
  }

  /** With ids that are unique across parents, as uuids are, the job deletes exactly what it should. */
  lemma JobIsAsExpected(db: Database, ps: seq<Policy>, standard: int, at: string -> int)
    requires Valid(db) && UniqueIds(db)
    ensures Without(db, Doomed(db, ps, standard, at, ALL_KINDS)) == Expected(db, ps, standard, at)
  {
    JobIsAsExpectedIff(db, ps, standard, at);
  }

  const NOON: string -> int := (kind: string) => 100

  /** The schema allows two parents to share an id; then one parent's expired run takes the other's result with it. */
  lemma SharedIdLosesAResult()
    ensures exists db: Database, kept: Key ::
      && Valid(db) && kept in db.results && !Goes(db, [], 10, NOON, kept)
      && kept !in Without(db, Doomed(db, [], 10, NOON, ALL_KINDS)).results
  {
    var r := Record("a", "1", "r", PIPELINE_RUN, 0, map[], map[], None);
    var kept := Key("b", "1");
    var db := Database({Key("a", "1"), kept}, {r});
    assert Owner(r) == Key("a", "1") && r.parent != kept.parent;
    assert NOON(r.kind) == 100 && Expired([], 10, 100, r);
    assert HasExpired(db, [], 10, NOON, Key("a", "1"), {PIPELINE_RUN});
    assert Goes(db, [], 10, NOON, Key("a", "1"));
    DoomedIff(db, [], 10, NOON, "1");
    assert !Goes(db, [], 10, NOON, kept);
  }
}
