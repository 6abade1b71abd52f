# Tekton Results: a verified model

Tekton Results archives finished TaskRuns, PipelineRuns and CustomRuns. A watcher in the cluster copies each
run to the Results API server, marks it, and deletes it when it is safe to; the server keeps Results, Records
and logs in PostgreSQL, answers filtered queries, and prunes old Results. This project models the parts of
that system whose correctness is not visible from any one function, and proves what they promise.

| files | what they model |
|---|---|
| `CelAst`, `SqlAst`, `Cel2SqlEmit`, `Cel2Sql`, `Cel2SqlFailures` | the CEL-to-PostgreSQL translator: one buffer, appended to during a walk of a typed CEL expression; when it rejects or crashes |
| `SqlReader`, `Cel2SqlMeaning`, `Cel2SqlReadback` | a reader with PostgreSQL's operator precedence (section 4.1.6 of the PostgreSQL manual), and the proof that it undoes the translator |
| `SqlBalance`, `Cel2SqlBalance` | parentheses: what is read and what is written is balanced |
| `CelSemantics`, `Cel2SqlPreservation`, `Cel2SqlTheorems` | CEL evaluation with errors, SQL evaluation with NULL, the preservation theorem |
| `Cel2SqlFilters` | a grammar of the filters users write, and the theorem that each of them keeps the rows CEL keeps |
| `Cel2SqlTimes`, `Cel2SqlCasts`, `Cel2SqlOperators` | exactly where the translation stops keeping values (times) and reading back (operators without parentheses) |
| `WatcherState`, `Watcher`, `WatcherLaws`, `WatcherAgreement` | reconcile, delete and finalize; exactly which runs are deleted, requeued and released, and what is left on them |
| `WatcherProtocol`, `WatcherFinalizers`, `WatcherDeadline`, `WatcherNamesakes` | the whole cluster as a state machine; safety over every run, and where it fails; bounds on waiting |
| `Annotation` | annotation patches under Server-Side Apply |
| `ResultNames`, `ResultsClient` | names of Results and Records; `Put` with its aliased maps |
| `RecordStore` | updates under etags, and what readers see, in every interleaving of clients |
| `LogUpload`, `LogUploadTheorems` | the `UpdateLog` receive loop and its exits |
| `LogListing`, `LogPages` | the log listing loop, the batcher, what is listed, and walks along page tokens |
| `Retention` | the retention job's SQL and its three cascading deletes |
| `FieldMask`, `FieldMaskStore`, `FieldMaskFilter` | the field-mask trie, its maps and shared slice, and message filtering |
| `LogWriter` | the chunking log writer over its byte buffer |
| `Prelude`, `Arithmetic` | shared helpers |

A filter has two readings here. In CEL's own, a string and a timestamp are different values. In the one the
translator documents (pkg/api/server/cel2sql/type_coercion.go:52-64), dynamic data beside a timestamp is read
as a timestamp. The preservation theorem holds for both; `World.lang` says which is meant.

Where the code changes state step by step, the model is a class or a method with loops, proved equal to a
specification function; the theorems are about those functions. Calls that leave the program (the API server,
the database, storage backends, the Kubernetes API, clocks) are parameters that may answer anything.

## What is false of the code, and exactly when it holds

- The translator's meaning: equality of dynamic data with a timestamp keeps CEL's Boolean if and only if the
  text parses, but not to that instant (`TimeEqualityIsKeptIff`, failing at `EqualInstantsAreConfused`); a
  comparison with a summary time if and only if the time is set, since CEL takes an unset one for the epoch
  (`SummaryTimeIsKeptIff`, `UnsetTimeIsDropped`; both failing filters are otherwise in the supported and readable
  fragment, `ConfusedFilterIsInTheFragment` and `UnsetTimeFilterIsInTheFragment`); equality of JSON data with a string if and only if the value
  is a string, or is neither null nor written like it (`DataEqualityIsKeptIff`).
- The translator's text: an infix operator with readable operands reads back as meant if and only if it is
  readable itself, that is, its operands bind tightly enough (`InfixReadsBackIff`, from `ComparisonReadsBackIff`,
  `ArithmeticReadsBackIff`, `InReadsBackIff`, `ImplicitCastReadsBackIff`; how a comparison is read otherwise is
  `ComparisonReads`); a cast if and only if what it follows is not a bare operator (`ExplicitCastReadsBackIff`,
  `GetterReadsBackIff`); `endsWith` and `matches` if and only if their argument is no plain index
  (`TextArgumentReadsBackIff`); `+` keeps all operands if and only if none is a call (`ConcatKeepsOperandsIff`);
  the outermost index is kept if and only if its key is a string (`OutermostIndexKeptIff`); an index into the
  summary is dropped (`SummaryIndexIsDropped`). The translator dereferences nil if and only if the first thing
  it cannot write is a chain whose first odd step is an index by no constant (`CrashesIff`, `VariableKeyCrashes`).
  A literal reads back as meant if and only if it is not a uint other than 0u (`LiteralReadsBackIff`). A filter of
  unknown type passes the check for a Boolean, but is a condition if and only if its type is Boolean
  (`AcceptedIsAConditionIff`). For every filter of the grammar in `Cel2SqlFilters`, none of this comes in the way
  (`GrammarSelectsTheSameRows`).
- The watcher patches annotations by name, with no uid. A reconcile of a stale copy can mark another run that has
  taken its name, and such a run can then be released without ever being stored (`StaleCopyMarksNamesake`,
  `StaleReconcileMarksARunningRun`, `NamesakeIsReleasedUnarchived`). A step keeps "marks are earned" if and only
  if it does not do that (`StepKeepsIff`), and so does a run (`InvariantHoldsIff`); in particular every run in
  which the watcher never works on a superseded copy is safe (`NeverSupersededMarksNone`).
- When a PipelineRun is deleted, an existing child is archived if and only if the lister has seen it
  (`DeletesOnlyArchivedIff`). The lister's NotFound is taken for "gone", so with one that lags a Delete is issued
  while a child runs (`LaggingListerDeletesTooEarly`).
- A finalizer waits for more than storage: even when every call succeeds, a finished run that a user deletes is
  released if and only if the watcher itself would delete it by now, past the grace period, with matching labels and
  no unmarked child, and it has the required annotations (`HealthyReleaseIff`); only the store deadline ends the
  wait (`ReleasedAfterDeadline`).
- `Patch` with an empty value: copy and cluster stay in agreement if and only if every such value is harmless
  (`AgreementIff`, failing at `EmptyValueBreaksAgreement`).
- `ensureResult` compares a map with itself: requested summary annotations reach the server except in the
  case named by `RequestHidden`, or when another client created the Result first without them
  (`SummaryAnnotationsReachServerIff`, failing at `RequestIsSwallowed`). A record annotation that names another
  Result's Record makes the request fail (`RecordRequestAccepted`, `ForeignRecordIsRefused`).
- Etags are id and nanosecond: an update under an etag succeeds if and only if the record is still the one
  read and every write to it since fell in the nanosecond of the write read (`UpdateSucceedsIff`), so it is lost
  if and only if there were such writes (`UpdateIsLostIff`, `StandingClockLosesUpdates`). With a clock that
  advances between writes it succeeds if and only if nobody wrote in between (`UpdateSucceedsIffUntouched`).
- `UpdateLog` takes io.EOF from anyone for the end of the client's stream: an upload that is not complete is
  recorded as stored if and only if its backend answered io.EOF (`PartialLogIsStoredIff`,
  `BackendEofStoresAPartialLog`). It answers io.EOF, which its comment rules out, in the cases of
  `AnswersEofIff`, the plainest being a client that sends nothing; and it records a log as stored before it
  flushes the backend (`StoredIsClaimedBeforeFlush`).
- Following `ListLogs` tokens drops every (n+1)-th match (`WalkReturnsIff`), so a walk is complete if and only
  if everything fits on one page (`WalkIsCompleteIff`); tokens naming the last record returned would lose
  nothing (`WalkFromLastIsComplete`).
- The retention job deletes by id alone: it does what the policies say if and only if no two results that
  share an id have different fates (`JobIsAsExpectedIff`, `SharedIdLosesAResult`).
- A field mask that goes on below a non-empty repeated scalar makes `Filter` panic, and nothing else does
  (`PanicsIff`). A second `Flush` of the log writer repeats the tail exactly when there is one
  (`SecondFlushRepeatsIff`).

## Model

| member | source | states |
|---|---|---|
| `Cel2Sql.Convert` | pkg/api/server/cel2sql/convert.go:25-41 | an expression of a type that is known not to be Boolean is refused; otherwise the walk over one buffer leaves exactly the tokens of the functional translation, or the same error |
| `Cel2SqlFailures.ChainFailsIff` | pkg/api/server/cel2sql/interpreter.go:180-236 | a chain is rejected or dereferences nil by its first step, from the leaf, that is no field and no constant key |
| `Cel2SqlFailures.FailsAtTheFirst` | pkg/api/server/cel2sql/interpreter.go:64-369 | on every filter the first of the things asked for that cannot be had decides between writing, rejecting and crashing |
| `Cel2SqlFailures.CrashesIff` | pkg/api/server/cel2sql/interpreter.go:180-195 | a filter crashes the translator iff that first failure is an index by no constant |
| `Cel2SqlFailures.VariableKeyCrashes` | pkg/api/server/cel2sql/interpreter.go:181-185 | a family of well-typed filters that crash it |
| `Cel2Sql.GetSelectFields` | pkg/api/server/cel2sql/interpreter.go:197-236 | the fields of a chain, leaf first, with the rejected and nil-dereference cases |
| `Cel2Sql.ReverseFields` | pkg/api/server/cel2sql/interpreter.go:244-247 | the two-index loop reverses the field list |
| `Cel2Sql.AllStringConcatArgs` | pkg/api/server/cel2sql/concat.go:35-49 | the flattened operands of `+`, without those that are calls |
| `Cel2Sql.Interpreter.InterpretExpr` | pkg/api/server/cel2sql/interpreter.go:64-85 | appends exactly the expression's tokens to whatever the buffer held |
| `Cel2Sql.Interpreter.InterpretConst` | pkg/api/server/cel2sql/interpreter.go:107-143 | appends the literal; a uint prints as 0, bytes are rejected |
| `Cel2Sql.Interpreter.InterpretSelect` | pkg/api/server/cel2sql/interpreter.go:238-270 | appends the accessors or the summary column of a chain, with an extra key if given |
| `Cel2Sql.Interpreter.InterpretBinary` | pkg/api/server/cel2sql/interpreter.go:301-354 | appends CONCAT, the @> form or the parenthesised infix form with its casts |
| `Cel2Sql.Interpreter.InterpretTextCall` | pkg/api/server/cel2sql/functions.go:62-89 | appends POSITION, LIKE or ~ around its operands |
| `Cel2Sql.Interpreter.InterpretTimeCall` | pkg/api/server/cel2sql/functions.go:91-107 | appends EXTRACT, decremented where CEL counts from zero |
| `Cel2Sql.Interpreter.TranslateToJsonAccessors` | pkg/api/server/cel2sql/select.go:26-36 | appends the parenthesised accessors of a path |
| `Cel2Sql.Interpreter.CoerceToTypeOf` | pkg/api/server/cel2sql/type_coercion.go:65-84 | appends the timestamp cast the other operand asks for |
| `Cel2SqlReadback.ReversedPathFollowsChain` | pkg/api/server/cel2sql/interpreter.go:197-262 | for chains of any depth the reversed fields, read as accessors, are the lookups of the chain from root to leaf |
| `Cel2SqlReadback.Reads` | pkg/api/server/cel2sql/interpreter.go:289-354 | an expression's tokens, followed by anything that binds more loosely, read back as its SQL tree and leave the rest |
| `Cel2SqlReadback.ReadBack` | pkg/api/server/cel2sql/interpreter.go:57-85 | printer and reader undo each other on every readable expression |
| `Cel2SqlBalance.EmitIsBalanced` | pkg/api/server/cel2sql/interpreter.go:64-369 | for every filter, readable or not, the tokens in the buffer are balanced |
| `SqlBalance.ParseTakes` | pkg/api/server/cel2sql/interpreter.go:289-354 | whatever is read takes up a balanced piece of the text |
| `Cel2SqlOperators.ArithmeticReadsBackIff` | pkg/api/server/cel2sql/interpreter.go:319-351 | an arithmetic operator of readable operands reads back as meant iff neither is a bare operator |
| `Cel2SqlOperators.InReadsBackIff` | pkg/api/server/cel2sql/interpreter.go:356-369 | `in` of readable operands reads back as meant iff the left one binds tightly and the list is not empty |
| `Cel2SqlOperators.InfixReadsBackIff` | pkg/api/server/cel2sql/interpreter.go:301-354 | the tokens of any infix operator with readable operands read back as meant iff it is readable |
| `Cel2SqlPreservation.ChainReaches` | pkg/api/server/cel2sql/interpreter.go:197-262 | the JSON lookup of a chain of any depth reaches the value CEL evaluation reaches |
| `Cel2SqlPreservation.PositionFindsOccurrence` | pkg/api/server/cel2sql/functions.go:62-73 | POSITION is non-zero exactly on occurrences |
| `Cel2SqlPreservation.LikePrefix` | pkg/api/server/cel2sql/functions.go:75-81 | LIKE with a trailing % is prefix for text without wildcards |
| `Cel2SqlPreservation.LikeSuffix` | pkg/api/server/cel2sql/functions.go:30-31 | LIKE with a leading % is suffix for text without wildcards |
| `Cel2SqlPreservation.SumKept` | pkg/api/server/cel2sql/concat.go:35-65 | CONCAT of the flattened operands is the string the nested additions evaluate to |
| `Cel2SqlPreservation.ContainmentKept` | pkg/api/server/cel2sql/index.go:24-62 | the @> form agrees with CEL equality on a map entry |
| `Cel2SqlPreservation.MembershipKept` | pkg/api/server/cel2sql/interpreter.go:356-369 | SQL IN agrees with CEL `in`, errors becoming NULL |
| `Cel2SqlPreservation.Preserves` | pkg/api/server/cel2sql/interpreter.go:64-369 | in either reading every supported expression keeps its value on every fitting row, errors becoming NULL or a value of the type |
| `Cel2SqlTheorems.FilterSelectsTheSameRows` | pkg/api/server/cel2sql/convert.go:23-41 | in either reading the tokens as PostgreSQL reads them yield the Boolean CEL yields, and never fail the statement |
| `Cel2SqlFilters.GrammarIsKept` | pkg/api/server/cel2sql/interpreter.go:272-369 | every filter of the grammar, named by its constructors, is translated without loss and of a meaning both languages share |
| `Cel2SqlFilters.GrammarSelectsTheSameRows` | pkg/api/server/cel2sql/convert.go:23-41 | every filter of the grammar is accepted, and on every row that fits its tokens as PostgreSQL reads them yield CEL's Boolean and never fail the statement |
| `Cel2SqlFilters.EntryFilterIsExact` | pkg/api/server/cel2sql/index.go:24-62 | `annotations[k] == v` and `summary.annotations[k] == v`, with the literal on either side, keep exactly the rows that have that annotation with that value |
| `Cel2SqlTheorems.AcceptedIsAConditionIff` | pkg/api/server/cel2sql/convert.go:31-33 | a filter that passes the type check is a condition iff its type is Boolean; one of unknown type is written as text |
| `Cel2SqlTheorems.DataEqualityIsKeptIff` | pkg/api/server/cel2sql/interpreter.go:259-262 | when == or != of any path into dynamic data with a string, but for data["key"] ==, keeps its value, for any value found |
| `Cel2SqlTheorems.ComparisonReads` | pkg/api/server/cel2sql/interpreter.go:319-351 | how any comparison of readable operands is read: as meant, as a negated comparison, or not at all |
| `Cel2SqlTheorems.ComparisonReadsBackIff` | pkg/api/server/cel2sql/functions.go:62-73 | a comparison reads back as meant iff neither operand is a negation or a bare contains |
| `Cel2SqlTimes.TimeEqualityIsKeptIff` | pkg/api/server/cel2sql/type_coercion.go:52-84 | any path into dynamic data == or != a timestamp keeps CEL's Boolean iff its text parses, but not to that instant |
| `Cel2SqlTimes.EqualInstantsAreConfused` | pkg/api/server/cel2sql/interpreter.go:330-335 | a filter and rows on which CEL says false and SQL true |
| `Cel2SqlTimes.SummaryTimeIsKeptIff` | pkg/api/server/cel2sql/select.go:39-47 | a comparison with a summary time keeps CEL's Boolean iff the time is set |
| `Cel2SqlTimes.UnsetTimeIsDropped` | pkg/api/server/db/model.go:47-48 | a filter and rows on which CEL keeps a Result that SQL drops |
| `Cel2SqlCasts.TreeWithCast` | pkg/api/server/cel2sql/type_coercion.go:77-84 | how every readable operand is read with a cast written after it: the cast takes its last tight piece |
| `Cel2SqlCasts.ExplicitCastReadsBackIff` | pkg/api/server/cel2sql/functions.go:109-115 | timestamp() reads back as meant iff its operand is no bare operator |
| `Cel2SqlCasts.GetterReadsBackIff` | pkg/api/server/cel2sql/functions.go:91-107 | a date getter on dynamic data reads back as meant iff its target is no bare operator |
| `Cel2SqlCasts.ImplicitCastReadsBackIff` | pkg/api/server/cel2sql/interpreter.go:324-351 | a comparison with implicit casts reads back as meant iff what is cast is no bare operator |
| `Cel2SqlCasts.TextArgumentReadsBackIff` | pkg/api/server/cel2sql/functions.go:83-89 | endsWith and matches read back as meant iff their argument is no plain index |
| `Cel2SqlTheorems.ConcatKeepsOperandsIff` | pkg/api/server/cel2sql/concat.go:35-49 | CONCAT gets every operand iff none is a call |
| `Cel2SqlTheorems.OutermostIndexKeptIff` | pkg/api/server/cel2sql/interpreter.go:249-257 | the outermost index keeps its key iff it is a string |
| `Cel2SqlTheorems.SummaryIndexIsDropped` | pkg/api/server/cel2sql/select.go:39-47 | an index into a summary field leaves no trace |
| `Cel2SqlTheorems.LiteralReadsBackIff` | pkg/api/server/cel2sql/interpreter.go:107-143 | a literal reads back as meant iff it is not a uint other than 0u |
| `Annotation.Run.Patch` | pkg/watcher/reconciler/annotation/annotation.go:90-177 | new copy, cluster object and call count, for success, conflict, forced retry and failure |
| `Annotation.IsPatched` | pkg/watcher/reconciler/annotation/annotation.go:181-189 | whether every annotation already has its value, a missing one counting as empty |
| `Annotation.BuildPatch` | pkg/watcher/reconciler/annotation/annotation.go:131-143 | managed annotations overwritten by the non-empty new ones |
| `Annotation.AgreementIff` | pkg/watcher/reconciler/annotation/annotation.go:139-174 | copy and cluster still agree after a patch iff its empty values are harmless |
| `Annotation.EmptyValueBreaksAgreement` | pkg/watcher/reconciler/annotation/annotation.go:139-172 | an empty value for a set key is cleared in the copy and left alone in the cluster |
| `Annotation.PatchesKeep` | pkg/watcher/reconciler/annotation/annotation.go:113-177 | any sequence of patches with non-empty values keeps agreement, loses no managed key and leaves foreign ones alone |
| `Annotation.RepeatedPatchIsFree` | pkg/watcher/reconciler/annotation/annotation.go:113-116 | a repeated patch makes no call and changes nothing |
| `Annotation.PatchSucceedsIff` | pkg/watcher/reconciler/annotation/annotation.go:98-161 | when a patch succeeds, whatever values other managers own, and how many requests it makes |
| `Watcher.AreAllChildRunsReady` | pkg/watcher/reconciler/pipelinerun/reconciler.go:131-183 | the first unmarked child or failed lookup decides |
| `Watcher.CheckChildren` | pkg/watcher/reconciler/pipelinerun/reconciler.go:131-203 | ready means that no referenced child blocks |
| `Watcher.Reconciler.PatchAnnotations` | pkg/watcher/reconciler/annotation/annotation.go:118-176 | the patch goes to whatever run is called so now; the copy follows on success |
| `Watcher.Reconciler.DeleteUponCompletion` | pkg/watcher/reconciler/dynamic/dynamic.go:294-376 | decision, event, new cluster state and whether a Delete was issued; a run under another uid is not deleted |
| `Watcher.Reconciler.AddStoredAnnotation` | pkg/watcher/reconciler/dynamic/dynamic.go:670-739 | `stored` is set to whether the run is done, unless logs or the configuration forbid it |
| `Watcher.Reconciler.AddChildReadyForDeletion` | pkg/watcher/reconciler/dynamic/dynamic.go:743-772 | the child mark goes on done runs with an owner |
| `Watcher.Reconciler.Reconcile` | pkg/watcher/reconciler/dynamic/dynamic.go:109-269 | store, annotate, mark, delete, then mark as stored; the first failure or requeue ends it |
| `Watcher.Reconciler.ReconcileKind` | pkg/watcher/reconciler/taskrun/reconciler.go:57-103 | which runs are skipped, and what reconciling does to the others |
| `Watcher.Reconciler.RequiredAnnotationsReady` | pkg/watcher/reconciler/config.go:207-221 | every required annotation is present and, where asked, exact |
| `Watcher.Reconciler.Finalize` | pkg/watcher/reconciler/taskrun/reconciler.go:156-243 | the event of the branch chain, with its escapes and waits |
| `Watcher.Reconciler.FinalizeKind` | pkg/watcher/reconciler/taskrun/reconciler.go:109-154 | reconcile, decide, and the deferred migration that can turn a release into a requeue |
| `WatcherLaws.DeleteIssuedIff` | pkg/watcher/reconciler/dynamic/dynamic.go:294-376 | a Delete is issued iff the reconcile gets that far, deletion is on, the run is done, no owner sees to it, the grace period is over, the labels match, no known child lacks its mark and no lookup fails |
| `WatcherLaws.ReconcileAnswers` | pkg/watcher/reconciler/dynamic/dynamic.go:328-376 | what any other run is told: the exact requeue interval, or an error |
| `WatcherLaws.StoringNeeds` | pkg/watcher/reconciler/dynamic/dynamic.go:153-250 | a reconcile gets that far only if the run was stored, its events were not refused and every annotation was there or could be sent |
| `WatcherLaws.ReconcileLeaves` | pkg/watcher/reconciler/dynamic/dynamic.go:109-269 | after a reconcile without error the server has the run as it was seen, and the copy has exactly the names, event list, child mark and truthful `stored` it should, and all else as before |
| `WatcherLaws.ReconcileTouches` | pkg/watcher/reconciler/dynamic/dynamic.go:361-376 | a reconcile changes the cluster by annotations and by a Delete that goes through, which only marks a run that has a finalizer |
| `WatcherLaws.ReleasedIff` | pkg/watcher/reconciler/taskrun/reconciler.go:109-243 | a finalizer is released iff its migration does not fail and the run is unmanaged, not held by finalizers, or past its buffer, reconciled without error, marked `stored` and, but for CustomRuns, has every required annotation with its value; else it is requeued |
| `WatcherLaws.HealthyReleaseIff` | pkg/watcher/reconciler/taskrun/reconciler.go:109-243 | when everything answers well, a finished run is released iff it is past its buffer, has the required annotations, and the watcher itself would not hold back its deletion |
| `WatcherAgreement.ReconcileIsSteady` | pkg/watcher/reconciler/annotation/annotation.go:127-174 | a reconcile that starts with the cluster's managed annotations ends with them, whatever fails in it, and leaves all others in the cluster alone |
| `WatcherAgreement.ClusterIsMarked` | pkg/watcher/reconciler/dynamic/dynamic.go:229-267 | so after a reconcile without error the run in the cluster has the annotations that are due |
| `WatcherProtocol.StepKeepsIff` | pkg/watcher/reconciler/dynamic/dynamic.go:153-268 | a step of watcher or environment keeps the invariant iff it does not mark another run called the same; an archived run stays archived |
| `WatcherProtocol.InvariantHoldsIff` | pkg/watcher/reconciler/dynamic/dynamic.go:245-267 | all along a run, marks in cluster and cache are only on runs the server holds in their final state, iff no step marks a namesake |
| `WatcherProtocol.NeverSupersededMarksNone` | pkg/watcher/reconciler/annotation/annotation.go:149-155 | a run in which the watcher never works on a superseded copy marks no namesake |
| `WatcherProtocol.ReleasedOnlyWhenArchived` | pkg/watcher/reconciler/pipelinerun/reconciler.go:209-328 | in every state of the invariant, so all along a run that marks no namesake, a finalizer is released only for an archived run, or one that is not managed or not held by finalizers |
| `WatcherFinalizers.GuardedUntilReleased` | pkg/watcher/reconciler/taskrun/reconciler.go:105-109 | a run under its finalizer stays so over every step, whoever takes it, but its own release |
| `WatcherFinalizers.ReleaseTakesEffect` | pkg/watcher/reconciler/taskrun/reconciler.go:105-243 | a released run is no longer under its finalizer, is gone if its deletion was asked for, and stays if not |
| `WatcherFinalizers.GoneOnlyWhenArchived` | pkg/watcher/reconciler/taskrun/reconciler.go:105-109 | all along every run of the system that marks no namesake, a run that has lost its finalizer was released by a finalize call, archived or not held by finalizers |
| `WatcherProtocol.DeletesOnlyArchivedIff` | pkg/watcher/reconciler/pipelinerun/reconciler.go:104-183 | in every such state, whenever a Delete is issued the run is archived, and an existing child that it references is archived iff the lister has seen it |
| `WatcherNamesakes.LaggingListerDeletesTooEarly` | pkg/watcher/reconciler/pipelinerun/reconciler.go:145-153 | a reachable state in which a PipelineRun is deleted while a child the lister has not seen is running |
| `WatcherNamesakes.StaleCopyMarksNamesake` | pkg/watcher/reconciler/annotation/annotation.go:118-155 | every reconcile of a stale copy that would mark its own run marks the run that has taken its name |
| `WatcherNamesakes.StaleReconcileMarksARunningRun` | pkg/watcher/reconciler/dynamic/dynamic.go:670-724 | a run of steps after which a running run is marked as stored |
| `WatcherNamesakes.NamesakeIsReleasedUnarchived` | pkg/watcher/reconciler/taskrun/reconciler.go:215-242 | going on from there, that run, held by finalizers, is released and its final state is never stored |
| `WatcherDeadline.ReleasedAfterDeadline` | pkg/watcher/reconciler/taskrun/reconciler.go:173-213 | past deadline and buffer every finalize call releases, whatever is answered, unless the migration fails |
| `WatcherDeadline.RequeuesAreBounded` | pkg/watcher/reconciler/taskrun/reconciler.go:173-240 | a finished run is held back at most span / interval + 1 times |
| `WatcherDeadline.GraceRequeueIsExact` | pkg/watcher/reconciler/dynamic/dynamic.go:339-343 | a reconcile within the grace period comes back at the first instant the check passes |
| `ResultNames.FindPipelineOwner` | pkg/watcher/results/results.go:324-331 | the uid of the first PipelineRun owner |
| `ResultNames.ParseFormatResult` | pkg/api/server/v1alpha2/result/result.go:41-54 | parsing a formatted Result name gives its parts back, or fails exactly on invalid parts |
| `ResultNames.ParseFormatRecord` | pkg/api/server/v1alpha2/record/record.go:48-60 | the same for Record names |
| `ResultNames.NamesAreStable` | pkg/watcher/results/results.go:310-352 | writing the names on the run does not change them |
| `ResultNames.ResultNamedAfterIff` | pkg/watcher/results/results.go:310-352 | an unannotated run's Result is named after its trigger event, else the first PipelineRun that owns it, else itself, and after nothing else |
| `ResultNames.ChildSharesResult` | pkg/watcher/results/results.go:317-336 | an unlabelled child whose first owner is a PipelineRun lands in the PipelineRun's Result |
| `ResultNames.ResultRequestAccepted` | pkg/api/server/v1alpha2/results.go:41-47 | every Result the watcher asks for passes the parent check iff its name is valid |
| `ResultNames.ResultAcceptedIff` | pkg/api/server/v1alpha2/results.go:41-47 | a Result is accepted under a parent iff its name is that of a Result of that parent |
| `ResultNames.PlainNamesAreAccepted` | pkg/api/server/v1alpha2/result/result.go:31-49 | runs whose namespace and uid are DNS labels get accepted names; parts longer than 63 characters never are |
| `ResultNames.RecordRequestAccepted` | pkg/api/server/v1alpha2/records.go:43-49 | the Record any run asks for passes the parent check iff its Result's name is valid and its own is a Record name under it |
| `ResultNames.DerivedRecordAcceptedIff` | pkg/watcher/results/results.go:339-352 | a derived name, before and after it is written on the run, passes iff the uid is valid |
| `ResultNames.ForeignRecordIsRefused` | pkg/watcher/results/results.go:346-350 | a record annotation naming another Result's Record is refused |
| `ResultsClient.CopyKeys` | pkg/watcher/results/results.go:245-249 | the target map holds its entries overwritten by the source's |
| `ResultsClient.Client.EnsureResult` | pkg/watcher/results/results.go:107-230 | the server's Results after the call, with the fetched map possibly shared by the new message, and another client's Result refetched after AlreadyExists |
| `ResultsClient.Client.UpsertRecord` | pkg/watcher/results/results.go:368-403 | the server's Records after the call; a write by another client after the lookup makes it fail on the etag or on AlreadyExists |
| `ResultsClient.Client.Put` | pkg/watcher/results/results.go:89-103 | both, the first failure ending it |
| `ResultsClient.PutStoresTheRun` | pkg/watcher/results/results.go:89-229 | after a successful Put the Record has the run's data, and the summary its record, type, status and times iff no other client created the Result first with others |
| `ResultsClient.PutAnnotates` | pkg/watcher/results/results.go:134-229 | when a Put leaves the Result alone, and otherwise, key by key, its annotations: the run's name, its labels, the requested pairs, and the stored ones where any are requested |
| `ResultsClient.PutSucceedsIff` | pkg/watcher/results/results.go:89-403 | exactly when a Put succeeds, and that it writes what is due and nothing more |
| `ResultsClient.SecondPutIsQuietIff` | pkg/watcher/results/results.go:218-229 | an immediate second Put of the same run writes nothing, iff no other client created its Result first otherwise |
| `ResultsClient.PutLeavesOthersAlone` | pkg/watcher/results/results.go:208-216 | an owned run never changes an existing Result; no Put touches other names |
| `ResultsClient.ServerHoldsTheLastPut` | pkg/watcher/results/results.go:89-403 | over any sequence of Puts, failed ones included, the server holds what a run's last successful Put sent, whatever its children and other runs put later |
| `ResultsClient.SummaryAnnotationsReachServerIff` | pkg/watcher/results/results.go:152-206 | when requested summary annotations reach the server |
| `ResultsClient.RequestIsSwallowed` | pkg/watcher/results/results.go:159-161 | a run whose request succeeds and is not written |
| `RecordStore.Server.Create` | pkg/api/server/v1alpha2/records.go:63-87 | a new row with id, times and etag, or AlreadyExists |
| `RecordStore.Server.Update` | pkg/api/server/v1alpha2/records.go:185-226 | NotFound, etag mismatch, invalid data, or the row with merged (for Results: replaced) data, new time and etag |
| `RecordStore.Server.Delete` | pkg/api/server/v1alpha2/records.go:238-247 | NotFound, or the row is gone |
| `RecordStore.InvariantHolds` | pkg/api/server/v1alpha2/record/record.go:161-172 | in every interleaving rows carry the etag of their last write, and a view is of the current row or of one written since, in the same nanosecond or later |
| `RecordStore.UpdateSucceedsIff` | pkg/api/server/v1alpha2/records.go:188-220 | an update under an etag succeeds iff the data is valid, the row is still the one read, and every write to it since fell in the nanosecond of the write read; which error it gets otherwise, and that nothing then changes |
| `RecordStore.UpdateIsLostIff` | pkg/api/server/v1alpha2/records.go:194-198 | an update is lost iff there were such writes |
| `RecordStore.StandingClockLosesUpdates` | pkg/api/server/v1alpha2/record/record.go:163-172 | two writes in one nanosecond give one etag, and an update is lost |
| `RecordStore.IdentityIsImmutable` | pkg/api/server/v1alpha2/results.go:118-135 | over any further steps id and creation time stay until the row is deleted |
| `RecordStore.ReadsTheLastWrite` | pkg/api/server/v1alpha2/records.go:200-216 | in every interleaving a reader gets what the last write left, field by field: what was sent, or for an empty field of a Record what was stored; with id, creation time and time of the write |
| `RecordStore.CreateAndDeleteAnswer` | pkg/api/server/v1alpha2/records.go:63-87 | AlreadyExists and NotFound exactly where they are due |
| `LogUpload.HandleReturn` | pkg/api/server/v1alpha2/logs.go:170-255 | effects and answer of every exit: recorded status, one flush, summary, which error wins |
| `LogUpload.Admit` | pkg/api/server/v1alpha2/logs.go:121-157 | name, authorization, record and stream, once per upload and in that order |
| `LogUpload.Receive` | pkg/api/server/v1alpha2/logs.go:105-168 | the effects up to the stop, the reason for it and the byte count |
| `LogUpload.UpdateLog` | pkg/api/server/v1alpha2/logs.go:105-168 | all effects and the answer, for every sequence of messages and every behaviour of backend and database |
| `LogUploadTheorems.ChunksBelongToTheFirstName` | pkg/api/server/v1alpha2/logs.go:121-161 | a chunk is written only after the first name's parent was authorized; chunks are whole, in order and under that name |
| `LogUploadTheorems.ParseFormatLog` | pkg/api/server/v1alpha2/log/log.go:26-46 | parsing a log's name gives back parent, result and name, or fails exactly on invalid parts |
| `LogUploadTheorems.StartedIff` | pkg/api/server/v1alpha2/logs.go:121-157 | a stream is opened iff the parent passes, the record of that name is found and its backend opens |
| `LogUploadTheorems.RecordedIsTheNamedRecord` | pkg/api/server/v1alpha2/logs.go:137-215 | a status goes to the record found under the first message's three parts, with size, reason and whether to try again |
| `LogUploadTheorems.SummaryNamesTheRecord` | pkg/api/server/v1alpha2/logs.go:244-249 | the summary names that record |
| `LogUploadTheorems.AnswerIs` | pkg/api/server/v1alpha2/logs.go:170-255 | what the client is told: the first thing that went wrong, with a failed flush beside it, or the first failure after success |
| `LogUploadTheorems.SizesAgree` | pkg/api/server/v1alpha2/logs.go:161-246 | the recorded and the reported size are the sum of what the backend took |
| `LogUploadTheorems.FlushedOnce` | pkg/api/server/v1alpha2/logs.go:180-254 | an opened stream is flushed exactly once on every way out |
| `LogUploadTheorems.StopsOnEofIff` | pkg/api/server/v1alpha2/logs.go:116-166 | the loop stops on io.EOF iff the client, the backend or an opening call answers it at the stop |
| `LogUploadTheorems.StoredIff` | pkg/api/server/v1alpha2/logs.go:192-197 | a status is recorded as stored iff the upload is complete or the backend answered io.EOF at the stop |
| `LogUploadTheorems.PartialLogIsStoredIff` | pkg/api/server/v1alpha2/logs.go:161-193 | an upload that is not complete is recorded as stored iff the backend answered io.EOF |
| `LogUploadTheorems.BackendEofStoresAPartialLog` | pkg/api/server/v1alpha2/logs.go:161-193 | a backend answering io.EOF to the first chunk has the log recorded as stored |
| `LogUploadTheorems.SucceedsIff` | pkg/api/server/v1alpha2/logs.go:235-254 | the call succeeds iff the stop counts as stored and nothing fails after it |
| `LogUploadTheorems.AnswersEofIff` | pkg/api/server/v1alpha2/logs.go:170-254 | io.EOF is returned iff nothing was sent, an opening call answered it with no record to write to, or the first failure after a stored stop is io.EOF |
| `LogUploadTheorems.NothingSentAnswersEnding` | pkg/api/server/v1alpha2/logs.go:116-120 | a client that sends nothing gets the error of its own stream back, and nothing else happens |
| `LogUploadTheorems.StoredIsClaimedBeforeFlush` | pkg/api/server/v1alpha2/logs.go:217-241 | whether a started upload is recorded as stored does not depend on the flush |
| `LogListing.Batcher.Next` | pkg/api/server/db/pagination/pagination.go:93-99 | at ratio one the batch is the smaller of want and max |
| `LogListing.Batcher.Update` | pkg/api/server/db/pagination/pagination.go:88-90 | a full batch sets the ratio to one |
| `LogListing.GetLogs` | pkg/api/server/v1alpha2/logs.go:328-391 | the loop ends with exactly the first n matching rows above the cursor, or the first error before them; every batch is min(n, max) |
| `LogListing.Collect` | pkg/api/server/v1alpha2/logs.go:357-379 | one batch moves the same number of rows from "to be looked at" to the answer |
| `LogListing.CursorMoves` | pkg/api/server/v1alpha2/logs.go:386-388 | moving the cursor to a returned row leaves exactly the rows after it |
| `LogListing.PageSize` | pkg/api/server/v1alpha2/pagination.go:30-39 | negative sizes are refused, others clamped to 1..10000, zero meaning the default |
| `LogPages.IssuedTokenResumes` | pkg/api/server/v1alpha2/pagination.go:41-54 | an issued token is accepted again iff the filter is the same, and then resumes after the match it names |
| `LogListing.ListLogs` | pkg/api/server/v1alpha2/logs.go:278-324 | the page from the token's cursor, with a token iff there is a further match |
| `LogPages.TakeIsFirst` | pkg/api/server/v1alpha2/logs.go:358-379 | without errors the answer is the first n of all matches |
| `LogPages.ListedIsInScope` | pkg/api/server/v1alpha2/logs.go:328-379 | an item on any page shows a log row of the parent and result asked for ("-" for any), above the cursor, that the filter matches |
| `LogPages.MatchingIff` | pkg/api/server/v1alpha2/logs.go:335-361 | the matches that walks are about are exactly those rows |
| `LogPages.CleanIff` | pkg/api/server/v1alpha2/logs.go:360-372 | rows can be judged iff the filter is defined on each and every match has a name |
| `LogPages.LogNameIs` | pkg/api/server/v1alpha2/logs.go:367-373 | a listed log goes by its record's name with "logs" for "records" |
| `LogPages.ResumesAfter` | pkg/api/server/v1alpha2/logs.go:340 | a token naming the match at k resumes at k + 1 |
| `LogPages.WalkReturnsIff` | pkg/api/server/v1alpha2/logs.go:301-318 | a walk is ascending, without repeats, and returns the match at j iff j mod (n+1) is not n |
| `LogPages.WalkIsCompleteIff` | pkg/api/server/v1alpha2/logs.go:307-318 | a walk returns every match iff they fit on one page |
| `LogPages.WalkFromLastIsComplete` | pkg/api/server/v1alpha2/logs.go:307-318 | with tokens naming the last record returned a walk returns every match |
| `Retention.BuildWhereClause` | pkg/retention/job.go:121-139 | the clause is true of exactly the records the selector fits, in any map order; it is well formed iff no value list is empty |
| `Retention.AddEntries` | pkg/retention/job.go:126-131 | one condition per map entry, whatever the order |
| `Retention.BuildCaseStatement` | pkg/retention/job.go:98-119 | CASE gives each record the period of the first fitting policy; refused iff a duration does not parse |
| `Retention.Agent.CleanupResults` | pkg/retention/job.go:67-96 | a result stays iff no record under its id is due or the statement was refused; a record stays iff its result does |
| `Retention.Agent.Job` | pkg/retention/job.go:46-65 | with each statement at its own time the job is one delete of the results the policies condemn, or nothing at all if one policy is malformed |
| `Retention.SweepIsOneDelete` | pkg/retention/job.go:55-62 | the deletes commute and are idempotent: only the set of record types, each with its time, matters |
| `Retention.DoomedIff` | pkg/retention/job.go:67-91 | exactly the ids of results that should go are condemned |
| `Retention.JobIsAsExpectedIff` | pkg/retention/job.go:78-91 | the job equals the declarative deletion iff results sharing an id share their fate |
| `Retention.JobIsAsExpected` | pkg/api/server/db/model.go:62-65 | with unique ids it always does |
| `Retention.SharedIdLosesAResult` | pkg/retention/job.go:79-80 | a database on which another parent's result is lost |
| `FieldMask.JoinSplit` | internal/fieldmask/fieldmask.go:91-91 | joining the fields of any path gives the path back |
| `FieldMask.InsertAdds` | internal/fieldmask/fieldmask.go:91-98 | adding a path adds its prefixes and nothing else |
| `FieldMask.PathsOfBuild` | internal/fieldmask/fieldmask.go:155-167 | the paths of a built mask are exactly those no other path strictly extends |
| `FieldMask.BuildIgnoresOrder` | internal/fieldmask/fieldmask.go:86-101 | lists with the same paths build the same mask |
| `FieldMask.RebuildIsIdentity` | internal/fieldmask/fieldmask.go:86-167 | building from a mask's paths gives the mask back |
| `FieldMaskStore.FieldMaskObject.Add` | internal/fieldmask/fieldmask.go:91-98 | the descent through shared references adds the path's prefixes and keeps the maps a tree |
| `FieldMaskStore.FieldMaskObject.Build` | internal/fieldmask/fieldmask.go:86-101 | the nested maps hold the mask the list describes |
| `FieldMaskStore.Paths` | internal/fieldmask/fieldmask.go:157-167 | with one slice shared by the recursion, exactly the leaf paths, and the caller's part of the slice untouched |
| `FieldMaskFilter.FilterTwice` | internal/fieldmask/fieldmask.go:103-153 | filtering is idempotent |
| `FieldMaskFilter.FilterJsonTwice` | internal/fieldmask/fieldmask.go:169-184 | filtering JSON is idempotent, although missing keys become null |
| `FieldMaskFilter.LeafKeptIff` | internal/fieldmask/fieldmask.go:103-153 | exactly the covered leaves stay, with their values, and those a mask path runs past |
| `FieldMaskFilter.CoveredByRequestIff` | internal/fieldmask/fieldmask.go:86-101 | a name is covered iff a maximal requested path is a prefix of it |
| `FieldMaskFilter.PanicsIff` | internal/fieldmask/fieldmask.go:133-137 | the filter panics iff a mask path runs past a non-empty repeated scalar |
| `FieldMaskFilter.FilteredIsSafe` | internal/fieldmask/fieldmask.go:103-153 | a filtered message can be filtered again |
| `LogWriter.BufferedLog.constructor` | pkg/logs/writer.go:39-50 | an empty writer with the given or the default size |
| `LogWriter.BufferedLog.Write` | pkg/logs/writer.go:72-101 | sends every full chunk and keeps the rest, in memory that may be shared; on an error the buffer is as before |
| `LogWriter.BufferedLog.SendChunks` | pkg/logs/writer.go:76-87 | the chunk loop sends the full chunks, or as many as the receiver takes |
| `LogWriter.BufferedLog.Refill` | pkg/logs/writer.go:89-98 | the buffer holds the remaining bytes although it may overlap them |
| `LogWriter.BufferedLog.Flush` | pkg/logs/writer.go:104-109 | sends the buffered bytes, if any, and keeps them |
| `LogWriter.BufferedLog.SendAll` | pkg/logs/writer.go:72-109 | the object itself, after all writes and one flush, has sent messages that join to the bytes written |
| `LogWriter.MessagesAreTheBytes` | pkg/logs/writer.go:72-109 | after any writes and one flush the messages join to the bytes written, all but the last of the configured size |
| `LogWriter.RunCutsTheWhole` | pkg/logs/writer.go:72-101 | how bytes were divided into writes leaves no trace in the messages |
| `LogWriter.SecondFlushRepeatsIff` | pkg/logs/writer.go:104-109 | a second flush repeats bytes iff the total is not a multiple of the size |

## Left out

- Text of SQL: the translator's output is modelled as tokens; quoting of string literals and lexing are not part of the model.
- CEL parsing and type checking: expressions arrive with their types, a nullable Boolean counting as no Boolean; the two-argument global form of `matches` is not modelled.
- Cel2SqlPreservation.Preserves: covers unbounded integers without overflow, no string ordering (collation) or time-zone argument; timestamp parsing, regular expressions, the UTC calendar and the text of non-string JSON are assumed to be shared by CEL and PostgreSQL.
- gorm column naming: the names of summary columns are taken as they are spelled, which is right for the fields of a summary.
- WatcherProtocol.InvariantHoldsIff: each reconcile or finalize is one step on a cached copy; runs are created without the watcher's marks, other parties never write those marks, a finished run's status is final, and namespaces are part of names. A run's snapshot is kept under its uid, although a record annotation can direct `Put` to another Record; an apply patch that finds no run fails, as it does where admission refuses a run without a spec.
- ResultsClient.Client.Put: what `Put` stores is an abstract snapshot in the watcher's state machine and is modelled in full only on its own; of two Puts at once, it sees the other as one Result created or one Record written between its lookup and its write.
- Finalizer list of the merge patch, log streaming, event lists, metrics callbacks: no-ops or single answers from outside.
- strings.EqualFold on owner kinds: ASCII case only.
- RecordStore.Server.Update: one transaction is one atomic step; name parsing, authorization and output-only fields are not part of the request; isolation levels are not modelled; the clock may stand still but does not go back.
- LogUpload.UpdateLog: the record update is one answer of the database; its etag check is that of `RecordStore`.
- LogListing.GetLogs: rows come in ascending id order, which the cursor presumes though the query asks for no order; an explicit sort order, and parsing of parent, filter and token encoding, are not modelled.
- Retention.Agent.Job: durations are parsed elsewhere and are whole time units; quoting of selector values is not modelled.
- FieldMaskFilter.LeafKeptIff: clearing fields in place is modelled as a new value; gjson's array indexes, wildcards and modifiers are not modelled, nor is the byte encoding of JSON.
- LogWriter.BufferedLog.Write: the receiver copies a message before it returns; a chunk it keeps by reference could change later.
- `lister.go`, `aggregator.go`, `ordering.go`, the converter, RBAC, TLS, server wiring, the CLI, generated protobuf and gateway code: easy members, plumbing or foreign calls.
