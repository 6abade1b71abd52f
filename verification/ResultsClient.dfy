/**
 Put: making sure the Result of a run exists and is current, then creating or updating the run's
 Record. Go maps are heap objects here, because the new summary can share its annotation map with the
 summary that was fetched and that it is compared with.
 */
module ResultsClient {
  import opened Prelude
  import opened ResultNames

  const OBJECT_NAME := "object.metadata.name"

  type Pairs = map<string, string>

  // ---------- what the server stores ----------

  datatype Facts = Facts(record: string, kind: string, status: int, start: Option<int>, end: Option<int>)

  datatype Summary = Summary(facts: Facts, annotations: Pairs)

  datatype ResultRow = ResultRow(annotations: Pairs, summary: Option<Summary>)

  datatype Store = Store(results: map<string, ResultRow>, records: map<string, string>, writes: nat)

  // ---------- the run ----------

  /** A requested set of annotations: absent, unparsable, or parsed. */
  datatype Request = NotAsked | Unparsable | Asked(pairs: Pairs)

  /** What of a run goes to the server. `labelPairs` are the configured summary labels the run carries. */
  datatype RunInfo = RunInfo(meta: Meta, name: string, kind: string, status: int, start: Option<int>, end: Option<int>,
                             data: string, resultAnnotations: Request, summaryAnnotations: Request, labelPairs: seq<(string, string)>)

  function FactsOf(run: RunInfo): Facts {
    Facts(RecordName(ResultName(run.meta), run.meta), run.kind, run.status, run.start, run.end)
  }

  /**
   Which of the API calls go through, and what other clients do meanwhile: create the Result between the
   lookup that did not find it and the creation, or write the Record between its lookup and its write.
   */
  datatype Answers = Answers(getResult: bool, writeResult: bool, rival: Option<ResultRow>, refetch: bool,
                             getRecord: bool, writeRecord: bool, overtaken: Option<string>)

  // ---------- the code ----------

  /** A Go map. */
  class StrMap {
    var entries: Pairs

    constructor (entries: Pairs)
      ensures this.entries == entries
    {
      this.entries := entries;
    }

    /** m[key] = value */
    method Set(key: string, value: string)
      modifies this
      ensures entries == old(entries)[key := value]
    {
      entries := entries[key := value];
    }
  }

  /** copyKeys(in, out): every pair of `source` is set in `target`, in whatever order the map is walked. */
  method CopyKeys(source: StrMap, target: StrMap)
    requires source != target
    modifies target
    ensures target.entries == old(target.entries) + source.entries
  {
    var left := source.entries.Keys;
    while left != {}
      invariant left <= source.entries.Keys
      invariant source.entries == old(source.entries)
      invariant target.entries == old(target.entries) + (map k | k in source.entries && k !in left :: source.entries[k])
      decreases left
    {
      var key :| key in left;
      target.Set(key, source.entries[key]);
      left := left - {key};
    }
  }

  function WithLabels(m: Pairs, labels: seq<(string, string)>): Pairs {
    if labels == [] then m
    else WithLabels(m, labels[..|labels| - 1])[labels[|labels| - 1].0 := labels[|labels| - 1].1]
  }

  class Client {
    var store: Store

    constructor (store: Store)
      ensures this.store == store
    {
      this.store := store;
    }

    /**
     The annotations of the new message: the fetched map itself, extended in place, if it is not empty,
     and the requested pairs otherwise.
     */
    method Merge(requested: Pairs, fetched: StrMap) returns (out: StrMap)
      modifies fetched
      ensures old(fetched.entries) != map[] ==> out == fetched && fetched.entries == old(fetched.entries) + requested
      ensures old(fetched.entries) == map[] ==> fresh(out) && out.entries == requested && fetched.entries == map[]
    {
      var wanted := new StrMap(requested);
      if |fetched.entries| != 0 {
        CopyKeys(wanted, fetched);
        return fetched;
      }
      return wanted;
    }

    /** The new message's own annotations, summary labels and object name included. */
    method BuildAnnotations(run: RunInfo, row: ResultRow) returns (out: StrMap)
      requires !run.resultAnnotations.Unparsable?
      ensures fresh(out) && out.entries == NewAnnotations(row, run)
    {
      var curr := new StrMap(row.annotations);
      out := new StrMap(map[]);
      if run.resultAnnotations.Asked? {
        out := Merge(run.resultAnnotations.pairs, curr);
      }
      if TopLevel(run.meta) {
        ghost var before := out.entries;
        for i := 0 to |run.labelPairs|
          invariant out.entries == WithLabels(before, run.labelPairs[..i])
        {
          assert run.labelPairs[..i + 1][..i] == run.labelPairs[..i];
          out.Set(run.labelPairs[i].0, run.labelPairs[i].1);
        }
        assert run.labelPairs[..|run.labelPairs|] == run.labelPairs;
        out.Set(OBJECT_NAME, run.name);
      }
    }

    /** The fetched summary's map and the new summary's, which may be one and the same. */
    method BuildSummary(run: RunInfo, row: ResultRow) returns (curr: StrMap, next: StrMap)
      requires !run.summaryAnnotations.Unparsable?
      ensures next.entries == NewSummaryAnnotations(row, run)
      ensures curr.entries == if Shared(row, run) then next.entries else FetchedSummary(row)
    {
      curr := new StrMap(if row.summary.Some? then row.summary.value.annotations else map[]);
      next := new StrMap(map[]);
      if run.summaryAnnotations.Asked? {
        next := Merge(run.summaryAnnotations.pairs, curr);
      }
    }

    method EnsureResult(run: RunInfo, a: Answers) returns (ok: bool)
      modifies this
      ensures (store, ok) == EnsureSpec(old(store), run, a)
    {
      var name := ResultName(run.meta);
      if !a.getResult { return false; }
      var found := name in store.results;
      var row := if found then store.results[name] else ResultRow(map[], None);
      var topLevel := TopLevel(run.meta);

      if run.resultAnnotations.Unparsable? { return false; }
      if topLevel && run.summaryAnnotations.Unparsable? { return false; }
      var annotations := BuildAnnotations(run, row);
      var summary := None;
      var same := false;
      if topLevel {
        var curr, next := BuildSummary(run, row);
        summary := Some(Summary(FactsOf(run), next.entries));
        // the fetched summary is compared after its map may have been extended
        same := row.summary.Some? && row.summary.value.facts == FactsOf(run) && curr.entries == next.entries;
      }
      if !found && a.rival.Some? {
        // AlreadyExists: the other client's Result is fetched and used
        store := store.(results := store.results[name := a.rival.value]);
        return a.writeResult && a.refetch;
      }
      if found && (!topLevel || same) { return true; }
      if !a.writeResult { return false; }
      var message := ResultRow(annotations.entries, summary);
      store := store.(results := store.results[name := message], writes := store.writes + 1);
      return true;
    }

    method UpsertRecord(run: RunInfo, a: Answers) returns (ok: bool)
      modifies this
      ensures (store, ok) == UpsertSpec(old(store), run, a)
    {
      var name := RecordName(ResultName(run.meta), run.meta);
      if !a.getRecord { return false; }
      if name in store.records && store.records[name] == run.data { return true; }
      if a.overtaken.Some? {
        // the etag sent is no longer the Record's, or it already exists
        store := store.(records := store.records[name := a.overtaken.value]);
        return false;
      }
      if !a.writeRecord { return false; }
      store := store.(records := store.records[name := run.data], writes := store.writes + 1);
      return true;
    }

    method Put(run: RunInfo, a: Answers) returns (ok: bool)
      modifies this
      ensures (store, ok) == PutSpec(old(store), run, a)
    {
      ok := EnsureResult(run, a);
      if !ok { return false; }
      ok := UpsertRecord(run, a);
    }
  }

  // ---------- what it does, without a heap ----------

  function FetchedSummary(row: ResultRow): Pairs {
    if row.summary.Some? then row.summary.value.annotations else map[]
  }

  /** The new summary's annotation map is the fetched one's. */
  predicate Shared(row: ResultRow, run: RunInfo) {
    run.summaryAnnotations.Asked? && FetchedSummary(row) != map[]
  }

  function Merged(request: Request, fetched: Pairs): Pairs {
    if !request.Asked? then map[] else if fetched != map[] then fetched + request.pairs else request.pairs
  }

  function NewSummaryAnnotations(row: ResultRow, run: RunInfo): Pairs {
    Merged(run.summaryAnnotations, FetchedSummary(row))
  }

  function NewAnnotations(row: ResultRow, run: RunInfo): Pairs {
    var merged := Merged(run.resultAnnotations, row.annotations);
    if TopLevel(run.meta) then WithLabels(merged, run.labelPairs)[OBJECT_NAME := run.name] else merged
  }

  /** The comparison that decides on an update: a shared map always equals itself. */
  predicate SummaryCurrent(row: ResultRow, run: RunInfo) {
    && row.summary.Some? && row.summary.value.facts == FactsOf(run)
    && (Shared(row, run) || FetchedSummary(row) == NewSummaryAnnotations(row, run))
  }

  function NewRow(row: ResultRow, run: RunInfo): ResultRow {
    ResultRow(NewAnnotations(row, run),
              if TopLevel(run.meta) then Some(Summary(FactsOf(run), NewSummaryAnnotations(row, run))) else None)
  }

  function Write(s: Store, name: string, row: ResultRow, a: Answers): (Store, bool) {
    if a.writeResult then (s.(results := s.results[name := row], writes := s.writes + 1), true) else (s, false)
  }

  /** Another client created the Result first. */
  predicate Disturbed(s: Store, run: RunInfo, a: Answers) { ResultName(run.meta) !in s.results && a.rival.Some? }

  function EnsureSpec(s: Store, run: RunInfo, a: Answers): (Store, bool) {
    var name := ResultName(run.meta);
    if !a.getResult || run.resultAnnotations.Unparsable? then (s, false)
    else if TopLevel(run.meta) && run.summaryAnnotations.Unparsable? then (s, false)
    else if Disturbed(s, run, a) then (s.(results := s.results[name := a.rival.value]), a.writeResult && a.refetch)
    else if name !in s.results then Write(s, name, NewRow(ResultRow(map[], None), run), a)
    else if !TopLevel(run.meta) || SummaryCurrent(s.results[name], run) then (s, true)
    else Write(s, name, NewRow(s.results[name], run), a)
  }

  function UpsertSpec(s: Store, run: RunInfo, a: Answers): (Store, bool) {
    var name := RecordName(ResultName(run.meta), run.meta);
    if !a.getRecord then (s, false)
    else if name in s.records && s.records[name] == run.data then (s, true)
    else if a.overtaken.Some? then (s.(records := s.records[name := a.overtaken.value]), false)
    else if !a.writeRecord then (s, false)
    else (s.(records := s.records[name := run.data], writes := s.writes + 1), true)
  }

  function PutSpec(s: Store, run: RunInfo, a: Answers): (Store, bool) {
    var (s1, ok) := EnsureSpec(s, run, a);
    if !ok then (s1, false) else UpsertSpec(s1, run, a)
  }

  // ---------- what Put promises ----------

  /** The Result's summary names the run's Record and has its type, status and times. */
  predicate Summarizes(row: ResultRow, run: RunInfo) {
    && row.summary.Some?
    && row.summary.value.facts.record == RecordName(ResultName(run.meta), run.meta)
    && row.summary.value.facts.kind == run.kind
    && row.summary.value.facts.status == run.status
    && row.summary.value.facts.start == run.start
    && row.summary.value.facts.end == run.end
  }

  /**
   After a successful Put the Record has the run's data, and a top-level run's Result has its facts, except
   exactly when another client created the Result first, with other facts.
   */
  lemma PutStoresTheRun(s: Store, run: RunInfo, a: Answers)
    requires PutSpec(s, run, a).1
    ensures var s' := PutSpec(s, run, a).0; var name := ResultName(run.meta);
      && name in s'.results
      && RecordName(name, run.meta) in s'.records && s'.records[RecordName(name, run.meta)] == run.data
      && (TopLevel(run.meta) ==>
            (Summarizes(s'.results[name], run) <==> !(Disturbed(s, run, a) && !Summarizes(a.rival.value, run))))
  {
  }

  /** The value the last pair with a key gives it. */
  function LastPair(labels: seq<(string, string)>, k: string): Option<string> {
    if labels == [] then None
    else if labels[|labels| - 1].0 == k then Some(labels[|labels| - 1].1)
    else LastPair(labels[..|labels| - 1], k)
  }

  lemma {:induction false} WithLabelsAt(m: Pairs, labels: seq<(string, string)>, k: string)
    ensures Lookup(WithLabels(m, labels), k) == if LastPair(labels, k).Some? then LastPair(labels, k) else Lookup(m, k)
  {
    if labels != [] { WithLabelsAt(m, labels[..|labels| - 1], k); }
  }

  /** What is asked for under a key; without a request nothing is, and with one the stored pairs are asked for too. */
  function AskedFor(request: Request, stored: Pairs, k: string): Option<string> {
    if !request.Asked? then None else if k in request.pairs then Some(request.pairs[k]) else Lookup(stored, k)
  }

  /** The stored summary has the run's facts, and the annotations asked for make no difference, or are not seen to. */
  ghost predicate LooksCurrent(row: ResultRow, run: RunInfo) {
    && Summarizes(row, run)
    && (|| (run.summaryAnnotations.Asked? && row.summary.value.annotations != map[])
        || forall k :: AskedFor(run.summaryAnnotations, row.summary.value.annotations, k) == Lookup(row.summary.value.annotations, k))
  }

  /** The annotations a row should have, key by key: the run's name, then its labels, then what is asked for. */
  predicate AnnotatedFor(row: ResultRow, stored: ResultRow, run: RunInfo, k: string) {
    && (TopLevel(run.meta) ==>
          && Lookup(row.annotations, OBJECT_NAME) == Some(run.name)
          && (k != OBJECT_NAME && LastPair(run.labelPairs, k).Some? ==> Lookup(row.annotations, k) == LastPair(run.labelPairs, k)))
    && (!TopLevel(run.meta) || (k != OBJECT_NAME && LastPair(run.labelPairs, k).None?) ==>
          Lookup(row.annotations, k) == AskedFor(run.resultAnnotations, stored.annotations, k))
    && (row.summary.Some? <==> TopLevel(run.meta))
    && (TopLevel(run.meta) ==>
          Lookup(row.summary.value.annotations, k)
            == AskedFor(run.summaryAnnotations, if stored.summary.Some? then stored.summary.value.annotations else map[], k))
  }

  lemma MergedAt(request: Request, stored: Pairs, k: string)
    ensures Lookup(Merged(request, stored), k) == AskedFor(request, stored, k)
  {
  }

  lemma NewRowIsAnnotated(row: ResultRow, run: RunInfo, k: string)
    ensures AnnotatedFor(NewRow(row, run), row, run, k)
  {
    MergedAt(run.resultAnnotations, row.annotations, k);
    MergedAt(run.summaryAnnotations, FetchedSummary(row), k);
    WithLabelsAt(Merged(run.resultAnnotations, row.annotations), run.labelPairs, k);
  }

  lemma CurrentIff(row: ResultRow, run: RunInfo)
    ensures SummaryCurrent(row, run) <==> LooksCurrent(row, run)
  {
    if row.summary.Some? {
      var stored := row.summary.value.annotations;
      forall k ensures Lookup(Merged(run.summaryAnnotations, stored), k) == AskedFor(run.summaryAnnotations, stored, k) {
        MergedAt(run.summaryAnnotations, stored, k);
      }
      SameMaps(Merged(run.summaryAnnotations, stored), stored);
    }
  }

  lemma SameMaps(m: Pairs, n: Pairs)
    ensures m == n <==> forall k :: Lookup(m, k) == Lookup(n, k)
  {
    if forall k :: Lookup(m, k) == Lookup(n, k) {
      forall k ensures k in m <==> k in n
               ensures k in m ==> m[k] == n[k] {
        assert Lookup(m, k) == Lookup(n, k);
      }
      assert m == n;
    }
  }

  /**
   A successful Put that nobody disturbs leaves an existing Result as it is if the run is owned or the stored summary
   looks current. Otherwise it writes it, with these annotations and no others: the run's name and labels, the
   requested pairs, and, where any are requested, those stored before.
   */
  lemma PutAnnotates(s: Store, run: RunInfo, a: Answers, k: string)
    requires PutSpec(s, run, a).1 && !Disturbed(s, run, a)
    ensures var s' := PutSpec(s, run, a).0; var name := ResultName(run.meta);
      && name in s'.results
      && (if name in s.results && (!TopLevel(run.meta) || LooksCurrent(s.results[name], run))
          then s'.results[name] == s.results[name]
          else AnnotatedFor(s'.results[name], if name in s.results then s.results[name] else ResultRow(map[], None), run, k))
  {
    var name := ResultName(run.meta);
    var row := if name in s.results then s.results[name] else ResultRow(map[], None);
    CurrentIff(row, run);
    NewRowIsAnnotated(row, run, k);
  }

  /** The Result is to be written: there is none, or there is one whose summary does not look current. */
  ghost predicate ResultIsDue(s: Store, run: RunInfo) {
    var name := ResultName(run.meta);
    name !in s.results || (TopLevel(run.meta) && !LooksCurrent(s.results[name], run))
  }

  /** The Record is to be written: there is none, or one with other data. */
  predicate RecordIsDue(s: Store, run: RunInfo) {
    var name := RecordName(ResultName(run.meta), run.meta);
    name !in s.records || s.records[name] != run.data
  }

  /** The requests can be made at all: the annotations parse, and the lookup is answered. */
  predicate Askable(run: RunInfo, a: Answers) {
    && a.getResult && !run.resultAnnotations.Unparsable?
    && (TopLevel(run.meta) ==> !run.summaryAnnotations.Unparsable?)
  }

  /**
   A Put succeeds if and only if the annotations it needs parse, both lookups are answered, each write that is due
   goes through, a Result another client created first can be fetched again, and nobody else wrote the Record in
   between. It writes what is due and nothing more.
   */
  lemma PutSucceedsIff(s: Store, run: RunInfo, a: Answers)
    ensures var (s', ok) := PutSpec(s, run, a);
      && (ok <==>
            && Askable(run, a) && (ResultIsDue(s, run) ==> a.writeResult) && (Disturbed(s, run, a) ==> a.refetch)
            && a.getRecord && (RecordIsDue(s, run) ==> a.writeRecord && a.overtaken.None?))
      && (ok ==> s'.writes == s.writes + (if ResultIsDue(s, run) && !Disturbed(s, run, a) then 1 else 0)
                                       + (if RecordIsDue(s, run) then 1 else 0))
  {
    if ResultName(run.meta) in s.results { CurrentIff(s.results[ResultName(run.meta)], run); }
  }

  /** What a second Put would find current after the first. */
  lemma EnsureLeavesCurrent(s: Store, run: RunInfo, a: Answers)
    requires EnsureSpec(s, run, a).1 && TopLevel(run.meta)
    ensures var s' := EnsureSpec(s, run, a).0; var name := ResultName(run.meta);
      && name in s'.results
      && (SummaryCurrent(s'.results[name], run) <==> !(Disturbed(s, run, a) && !SummaryCurrent(a.rival.value, run)))
  {
    var name := ResultName(run.meta);
    var s' := EnsureSpec(s, run, a).0;
    var row := if name in s.results then s.results[name] else ResultRow(map[], None);
    if !Disturbed(s, run, a) && !(name in s.results && SummaryCurrent(row, run)) {
      assert s'.results[name] == NewRow(row, run);
      assert FetchedSummary(s'.results[name]) == NewSummaryAnnotations(row, run);
    }
  }

  /**
   An immediate second Put of the same run writes nothing, except exactly when another client created the
   Result of a top-level run first, and not as the run would have it.
   */
  lemma SecondPutIsQuietIff(s: Store, run: RunInfo, a: Answers, again: Answers)
    requires PutSpec(s, run, a).1 && again.getResult && again.getRecord
    ensures PutSpec(PutSpec(s, run, a).0, run, again) == (PutSpec(s, run, a).0, true) <==>
      !(TopLevel(run.meta) && Disturbed(s, run, a) && !SummaryCurrent(a.rival.value, run))
  {
    if TopLevel(run.meta) { EnsureLeavesCurrent(s, run, a); }
  }

  lemma EnsureLeavesOthers(s: Store, run: RunInfo, a: Answers, n: string)
    ensures var s' := EnsureSpec(s, run, a).0;
      && s'.records == s.records
      && (!TopLevel(run.meta) && ResultName(run.meta) in s.results ==> s'.results == s.results)
      && (n in s.results && n != ResultName(run.meta) ==> n in s'.results && s'.results[n] == s.results[n])
  {
  }

  lemma UpsertLeavesOthers(s: Store, run: RunInfo, a: Answers, n: string)
    ensures var s' := UpsertSpec(s, run, a).0;
      && s'.results == s.results
      && (n in s.records && n != RecordName(ResultName(run.meta), run.meta) ==> n in s'.records && s'.records[n] == s.records[n])
  {
  }

  /** A Put of an owned run never changes an existing Result, and no Put changes another run's Result or Record. */
  lemma PutLeavesOthersAlone(s: Store, run: RunInfo, a: Answers, n: string)
    ensures var s' := PutSpec(s, run, a).0; var name := ResultName(run.meta);
      && (!TopLevel(run.meta) && name in s.results ==> s'.results == s.results)
      && (n in s.results && n != name ==> n in s'.results && s'.results[n] == s.results[n])
      && (n in s.records && n != RecordName(name, run.meta) ==> n in s'.records && s'.records[n] == s.records[n])
  {
    EnsureLeavesOthers(s, run, a, n);
    UpsertLeavesOthers(EnsureSpec(s, run, a).0, run, a, n);
  }

  predicate Within(a: Pairs, b: Pairs) { forall k :: k in a ==> k in b && b[k] == a[k] }

  /** The request is compared with a map it has itself been copied into. */
  predicate RequestHidden(row: ResultRow, run: RunInfo) {
    && Summarizes(row, run) && run.summaryAnnotations.Asked?
    && FetchedSummary(row) != map[] && !Within(run.summaryAnnotations.pairs, FetchedSummary(row))
  }

  /**
   The summary annotations a run asks for reach the server, except exactly when the Result already has some,
   they differ from the request and nothing else about the summary has changed; or when another client
   created the Result first without them.
   */
  lemma SummaryAnnotationsReachServerIff(s: Store, run: RunInfo, a: Answers)
    requires PutSpec(s, run, a).1 && TopLevel(run.meta) && run.summaryAnnotations.Asked?
    ensures var s' := PutSpec(s, run, a).0; var name := ResultName(run.meta);
      && name in s'.results
      && (Within(run.summaryAnnotations.pairs, FetchedSummary(s'.results[name])) <==>
            !(name in s.results && RequestHidden(s.results[name], run))
            && !(Disturbed(s, run, a) && !Within(run.summaryAnnotations.pairs, FetchedSummary(a.rival.value))))
  {
  }

  /** A run that asks for b=2 on a Result that has a=1: the Put succeeds and writes nothing to the Result. */
  lemma RequestIsSwallowed(run: RunInfo, a: Answers)
    requires TopLevel(run.meta) && run.summaryAnnotations == Asked(map["b" := "2"]) && !run.resultAnnotations.Unparsable?
    requires a.getResult && a.getRecord && a.writeRecord && a.overtaken.None?
    ensures var name := ResultName(run.meta);
      var row := ResultRow(map[], Some(Summary(FactsOf(run), map["a" := "1"])));
      var (after, ok) := PutSpec(Store(map[name := row], map[], 0), run, a);
      ok && after.results == map[name := row] && !Within(run.summaryAnnotations.pairs, FetchedSummary(row))
  {
    var row := ResultRow(map[], Some(Summary(FactsOf(run), map["a" := "1"])));
    assert "b" in run.summaryAnnotations.pairs && "b" != "a";
    assert "a" in FetchedSummary(row);
    assert SummaryCurrent(row, run);
  }

  // ---------- any sequence of Puts ----------

  datatype Call = Call(run: RunInfo, a: Answers)

  function Record(c: Call): string { RecordName(ResultName(c.run.meta), c.run.meta) }

  function AfterPuts(s: Store, calls: seq<Call>): Store {
    if calls == [] then s
    else PutSpec(AfterPuts(s, calls[..|calls| - 1]), calls[|calls| - 1].run, calls[|calls| - 1].a).0
  }

  predicate Succeeds(s: Store, calls: seq<Call>, i: nat)
    requires i < |calls|
  {
    PutSpec(AfterPuts(s, calls[..i]), calls[i].run, calls[i].a).1
  }

  /** The server's Record and, for a top-level run, its Result's summary are those of the run. */
  predicate Holds(s: Store, c: Call) {
    var name := ResultName(c.run.meta);
    && Record(c) in s.records && s.records[Record(c)] == c.run.data
    && (TopLevel(c.run.meta) ==> name in s.results && Summarizes(s.results[name], c.run))
  }

  /** The other call writes another Record, and another Result or, being owned, none that exists. */
  predicate KeepsOff(c: Call, d: Call) {
    Record(d) != Record(c) && (ResultName(d.run.meta) == ResultName(c.run.meta) ==> !TopLevel(d.run.meta))
  }

  lemma PutKeepsOthers(s: Store, c: Call, d: Call)
    requires Holds(s, c) && KeepsOff(c, d)
    ensures Holds(PutSpec(s, d.run, d.a).0, c)
  {
    PutLeavesOthersAlone(s, d.run, d.a, Record(c));
    PutLeavesOthersAlone(s, d.run, d.a, ResultName(c.run.meta));
  }

  /**
   Over any sequence of Puts of any runs, failed and disturbed ones included, the server holds what the
   last successful Put of a run sent, as long as later calls are for other runs; in particular, Puts of
   the children that share its Result do not change a PipelineRun's summary.
   */
  lemma {:induction false} ServerHoldsTheLastPut(s: Store, calls: seq<Call>, i: nat)
    requires i < |calls| && Succeeds(s, calls, i) && !Disturbed(AfterPuts(s, calls[..i]), calls[i].run, calls[i].a)
    requires forall j :: i < j < |calls| ==> KeepsOff(calls[i], calls[j])
    ensures Holds(AfterPuts(s, calls), calls[i])
  {
    var n := |calls| - 1;
    if i == n {
      PutStoresTheRun(AfterPuts(s, calls[..n]), calls[n].run, calls[n].a);
    } else {
      assert calls[..n][..i] == calls[..i];
      ServerHoldsTheLastPut(s, calls[..n], i);
      PutKeepsOthers(AfterPuts(s, calls[..n]), calls[i], calls[n]);
    }
  }
}
