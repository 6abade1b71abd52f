/** What every run of UpdateLog keeps, whatever the client, the backend and the database do. */
module LogUploadTheorems {
  import opened Prelude
  import opened ResultNames
  import opened LogUpload

  function Flushes(trace: seq<Event>): nat {
    if trace == [] then 0
    else Flushes(trace[..|trace| - 1]) + (if trace[|trace| - 1].Flushed? then 1 else 0)
  }

  predicate Started(env: Env) {
    env.messages != [] && Begin(env, env.messages[0].name).1.Good?
  }

  // ---------- the shape of a run ----------

  lemma OpeningShape(env: Env, name: string)
    ensures var (opening, session, stop) := Begin(env, name);
      if session.Good? then
        && opening == [Checked(session.value.parent), Opened(session.value.log)]
        && ParseLog(name).Some? && ParseLog(name).value.parent == session.value.parent
        && env.check(session.value.parent).None?
      else |opening| <= 1 && (forall i :: 0 <= i < |opening| ==> opening[i].Checked?) && !stop.isOpen
  {
  }

  /** How many chunks reached the backend. */
  function Chunks(env: Env): nat {
    var k := StopsAt(env, 0);
    if k < |env.messages| && env.messages[k].name == env.messages[0].name then k + 1 else k
  }

  lemma RunShape(env: Env)
    ensures var (trace, stop) := Received(env);
      if Started(env) then
        var (opening, _, _) := Begin(env, env.messages[0].name);
        trace == opening + WritesFrom(env, 0, Chunks(env)) && stop.isOpen && stop.rec.Some? && stop.log.Some?
      else |trace| <= 1 && (forall i :: 0 <= i < |trace| ==> trace[i].Checked?) && !stop.isOpen
  {
    if env.messages != [] { OpeningShape(env, env.messages[0].name); }
  }

  lemma NamesAgree(env: Env, j: nat)
    requires j < Chunks(env)
    ensures j < |env.messages| && env.messages[j].name == env.messages[0].name
  {
    var k := StopsAt(env, 0);
    if j < k { assert Continues(env, j); }
  }

  predicate Closing(e: Event) { e.Recorded? || e.Flushed? || e.Summarized? }

  lemma EndingShape(env: Env, stop: Stop, written: nat)
    ensures var t := Ending(env, stop, written).0;
      && (forall i :: 0 <= i < |t| ==> Closing(t[i]))
      && (forall i :: 0 <= i < |t| && t[i].Recorded? ==>
            stop.rec.Some? && stop.log.Some?
            && t[i] == Recorded(stop.rec.value, Final(stop.log.value, written, stop.cause, stop.retryable)))
      && (forall i :: 0 <= i < |t| && t[i].Summarized? ==> t[i].bytes == written && stop.cause.Eof?)
  {
  }

  lemma EndingFlushes(env: Env, stop: Stop, written: nat)
    ensures Flushes(Ending(env, stop, written).0) == if stop.isOpen then 1 else 0
  {
    var t := Ending(env, stop, written).0;
    if |t| == 1 { FlushesOfFew(t[0], t[0], t[0]); assert t == [t[0]]; }
    if |t| == 2 { FlushesOfFew(t[0], t[1], t[1]); assert t == [t[0], t[1]]; }
    if |t| == 3 { FlushesOfFew(t[0], t[1], t[2]); assert t == [t[0], t[1], t[2]]; }
  }

  lemma FlushesOfFew(a: Event, b: Event, c: Event)
    ensures Flushes([a]) == (if a.Flushed? then 1 else 0)
    ensures Flushes([a, b]) == Flushes([a]) + (if b.Flushed? then 1 else 0)
    ensures Flushes([a, b, c]) == Flushes([a, b]) + (if c.Flushed? then 1 else 0)
  {
    assert [a, b][..1] == [a] && [a, b, c][..2] == [a, b];
  }

  lemma {:induction false} CountsAppend(a: seq<Event>, b: seq<Event>)
    ensures Flushes(a + b) == Flushes(a) + Flushes(b)
    ensures Written(a + b) == Written(a) + Written(b)
  {
    if b == [] {
      assert a + b == a;
    } else {
      var n := |b| - 1;
      assert (a + b)[..|a + b| - 1] == a + b[..n];
      CountsAppend(a, b[..n]);
    }
  }

  lemma {:induction false} NothingCounted(t: seq<Event>)
    ensures (forall i :: 0 <= i < |t| ==> !t[i].Wrote?) ==> Written(t) == 0
    ensures (forall i :: 0 <= i < |t| ==> !t[i].Flushed?) ==> Flushes(t) == 0
  {
    if t != [] { NothingCounted(t[..|t| - 1]); }
  }

  // ---------- the properties ----------

  /**
   A chunk reaches the backend only after the authorizer passed the parent named by the first message
   and the stream was opened; chunks arrive in the order sent, whole, and all under the first message's name.
   */
  lemma ChunksBelongToTheFirstName(env: Env, i: nat)
    requires i < |Upload(env).0| && Upload(env).0[i].Wrote?
    ensures 2 <= i < 2 + |env.messages|
    ensures Upload(env).0[i].name == env.messages[0].name == env.messages[i - 2].name
    ensures Upload(env).0[i].data == env.messages[i - 2].data
    ensures ParseLog(env.messages[0].name).Some?
    ensures var parent := ParseLog(env.messages[0].name).value.parent;
      Upload(env).0[0] == Checked(parent) && env.check(parent).None? && Upload(env).0[1].Opened?
  {
    WroteWhileReceiving(env, i);
    RunShape(env);
    OpeningShape(env, env.messages[0].name);
    NamesAgree(env, i - 2);
  }

  /** Chunks are written by the loop, after the two opening events, in the order received. */
  lemma WroteWhileReceiving(env: Env, i: nat)
    requires i < |Upload(env).0| && Upload(env).0[i].Wrote?
    ensures Started(env) && 2 <= i < 2 + Chunks(env) && Upload(env).0[i] == Write(env, i - 2)
    ensures Received(env).0 <= Upload(env).0 && i < |Received(env).0|
  {
    var (trace, stop) := Received(env);
    EndingShape(env, stop, Written(trace));
    RunShape(env);
    OpeningShape(env, env.messages[0].name);
    assert trace[i] == WritesFrom(env, 0, Chunks(env))[i - 2];
  }

  /** The recorded size and the size reported to the client are the sum of what the backend took. */
  lemma SizesAgree(env: Env, i: nat)
    requires i < |Upload(env).0|
    ensures var t := Upload(env).0;
      && (t[i].Recorded? ==> t[i].log.size == Written(t))
      && (t[i].Summarized? ==> t[i].bytes == Written(t))
  {
    var (trace, stop) := Received(env);
    var ending := Ending(env, stop, Written(trace)).0;
    RunShape(env);
    EndingShape(env, stop, Written(trace));
    NothingCounted(ending);
    CountsAppend(trace, ending);
    if i < |trace| { OpenedOrWrote(env, i); } else { assert Upload(env).0[i] == ending[i - |trace|]; }
  }

  lemma OpenedOrWrote(env: Env, i: nat)
    requires i < |Received(env).0|
    ensures !Closing(Received(env).0[i])
  {
    RunShape(env);
    if Started(env) { OpeningShape(env, env.messages[0].name); }
  }

  /** An opened stream is flushed once on every way out, and nothing else is. */
  lemma FlushedOnce(env: Env)
    ensures Flushes(Upload(env).0) == if Started(env) then 1 else 0
    ensures Started(env) <==> exists i :: 0 <= i < |Upload(env).0| && Upload(env).0[i].Opened?
  {
    var (trace, stop) := Received(env);
    var ending := Ending(env, stop, Written(trace)).0;
    RunShape(env);
    forall i | 0 <= i < |trace| ensures !Closing(trace[i]) { OpenedOrWrote(env, i); }
    NothingCounted(trace);
    EndingFlushes(env, stop, Written(trace));
    CountsAppend(trace, ending);
    EndingShape(env, stop, Written(trace));
    if Started(env) {
      OpeningShape(env, env.messages[0].name);
      assert Upload(env).0[1].Opened?;
    }
  }

  // ---------- io.EOF, whoever answers it ----------

  /** The client closed its stream after messages that were all taken. */
  predicate Complete(env: Env) {
    env.ending.Eof? && forall j :: 0 <= j < |env.messages| ==> Continues(env, j)
  }

  /** A backend answers io.EOF to the first chunk it does not take. */
  predicate BackendEnds(env: Env) {
    && Started(env) && StopsAt(env, 0) < |env.messages|
    && var k := StopsAt(env, 0);
       env.messages[k].name == env.messages[0].name && env.read(k, env.messages[k].data).err == Some(Eof)
  }

  /** A call made for the first message, before anything is written, answers io.EOF. */
  predicate OpeningEnds(env: Env) {
    env.messages != [] && !Started(env) && Begin(env, env.messages[0].name).2.cause.Eof?
  }

  /** The loop stops on io.EOF exactly when the client, the backend or an opening call answers it at the stop. */
  lemma StopsOnEofIff(env: Env)
    ensures Received(env).1.cause.Eof? <==>
      ((env.messages == [] && env.ending.Eof?) || (Started(env) && Complete(env)) || BackendEnds(env) || OpeningEnds(env))
  {
    if env.messages != [] {
      var k := StopsAt(env, 0);
      if Complete(env) { assert k == |env.messages|; }
      if k == |env.messages| && env.ending.Eof? { assert Complete(env); }
    }
  }

  /** The opening call that can answer io.EOF and still leave a record to write a status to: opening the backend. */
  predicate BackendUnopened(env: Env) {
    && env.messages != [] && !Started(env)
    && var stop := Begin(env, env.messages[0].name).2; stop.rec.Some? && stop.log.Some?
  }

  /** The stop was io.EOF and there is a record to write the status to. */
  predicate StopIsStored(env: Env) {
    (Started(env) && Complete(env)) || BackendEnds(env) || (OpeningEnds(env) && BackendUnopened(env))
  }

  /**
   A status is recorded as stored exactly when the upload is complete, or the call that stopped it answered
   io.EOF: the backend to a chunk, or the attempt to open it.
   */
  lemma StoredIff(env: Env, i: nat)
    requires i < |Upload(env).0| && Upload(env).0[i].Recorded?
    ensures Upload(env).0[i].log.isStored <==>
      StopIsStored(env)
  {
    RecordedAtTheEnd(env, i);
    StopsOnEofIff(env);
    RunShape(env);
  }

  lemma RecordedAtTheEnd(env: Env, i: nat)
    requires i < |Upload(env).0| && Upload(env).0[i].Recorded?
    ensures var (trace, stop) := Received(env);
      && stop.rec.Some? && stop.log.Some? && env.marshal.None? && env.update.None?
      && Upload(env).0[i].log == Final(stop.log.value, Written(trace), stop.cause, stop.retryable)
  {
    var (trace, stop) := Received(env);
    EndingShape(env, stop, Written(trace));
    if i < |trace| { OpenedOrWrote(env, i); }
    assert Upload(env).0[i] == Ending(env, stop, Written(trace)).0[i - |trace|];
  }

  /** So an upload that is not complete is recorded as stored exactly when that io.EOF came from the backend. */
  lemma PartialLogIsStoredIff(env: Env, i: nat)
    requires i < |Upload(env).0| && Upload(env).0[i].Recorded?
    ensures (Upload(env).0[i].log.isStored && !(Started(env) && Complete(env))) <==>
      (BackendEnds(env) || (OpeningEnds(env) && BackendUnopened(env)))
  {
    StoredIff(env, i);
    if BackendEnds(env) { assert !Continues(env, StopsAt(env, 0)); }
  }

  /** A backend that answers io.EOF to the very first chunk: nothing more is taken, and the log counts as stored. */
  lemma BackendEofStoresAPartialLog(env: Env)
    requires Started(env) && env.marshal.None? && env.update.None?
    requires env.read(0, env.messages[0].data).err == Some(Eof)
    ensures !Complete(env)
    ensures exists i :: 0 <= i < |Upload(env).0| && Upload(env).0[i].Recorded? && Upload(env).0[i].log.isStored
  {
    assert !Continues(env, 0) && StopsAt(env, 0) == 0;
    StoredIsClaimedBeforeFlush(env);
    StopsOnEofIff(env);
  }

  /** What follows the stop goes well. */
  predicate EndsWell(env: Env) {
    env.marshal.None? && env.update.None? && (Started(env) ==> env.flush.None?) && env.send.None?
  }

  /** The call succeeds exactly when a status can be recorded, the stop was io.EOF, and nothing fails after it. */
  lemma SucceedsIff(env: Env)
    ensures Upload(env).1.None? <==>
      StopIsStored(env) && EndsWell(env)
  {
    StopsOnEofIff(env);
    RunShape(env);
  }

  /** The first thing to fail after the stop answers io.EOF itself. */
  predicate LateEof(env: Env) {
    var flushBad := Started(env) && env.flush.Some?;
    if env.marshal.Some? then !flushBad && env.marshal == Some(Eof)
    else if env.update.Some? then !flushBad && env.update == Some(Eof)
    else if flushBad then env.flush == Some(Eof)
    else env.send == Some(Eof)
  }

  /**
   The handler's own comment rules out answering with io.EOF. It does so exactly when nothing was sent, when
   an opening call answers io.EOF with no record to write to, and when the first failure after a stop that
   counts as stored is io.EOF too.
   */
  lemma AnswersEofIff(env: Env)
    ensures Upload(env).1 == Some(Eof) <==>
      || (env.messages == [] && env.ending.Eof?)
      || (OpeningEnds(env) && !BackendUnopened(env))
      || (StopIsStored(env) && LateEof(env))
  {
    RunShape(env);
    StopsOnEofIff(env);
  }

  /** A client that sends nothing is always answered with the end of its own stream. */
  lemma NothingSentAnswersEnding(env: Env)
    requires env.messages == []
    ensures Upload(env).0 == [] && Upload(env).1 == Some(env.ending)
  {
  }

  /**
   The status is recorded before the backend is flushed, so whether an upload is recorded as stored does
   not depend on the flush: it is, exactly when it stopped on io.EOF and the record could be written.
   */
  lemma StoredIsClaimedBeforeFlush(env: Env)
    requires Started(env)
    ensures (exists i :: 0 <= i < |Upload(env).0| && Upload(env).0[i].Recorded? && Upload(env).0[i].log.isStored) <==>
      (Complete(env) || BackendEnds(env)) && env.marshal.None? && env.update.None?
  {
    var (trace, stop) := Received(env);
    var t := Upload(env).0;
    RunShape(env);
    StopsOnEofIff(env);
    var ending := Ending(env, stop, Written(trace)).0;
    if env.marshal.None? && env.update.None? {
      assert ending[0] == Recorded(stop.rec.value, Final(stop.log.value, Written(trace), stop.cause, stop.retryable));
      assert t[|trace|] == ending[0];
    }
    forall i | 0 <= i < |t| && t[i].Recorded?
      ensures env.marshal.None? && env.update.None? && (t[i].log.isStored <==> stop.cause.Eof?)
    {
      RecordedAtTheEnd(env, i);
    }
  }

  // ---------- names and records ----------

  function FormatLog(parent: string, result: string, name: string): string {
    FormatResult(parent, result) + "/logs/" + name
  }

  /** Parsing a log's name gives back the parts it was made of. */
  lemma ParseFormatLog(parent: string, result: string, name: string)
    requires NoSlash(parent) && NoSlash(result)
    ensures ParseLog(FormatLog(parent, result, name))
         == if Segment(parent) && Segment(result) && Segment(name) then Some(Parts(parent, result, name)) else None
  {
    var inner := result + ("/logs/" + name);
    assert FormatLog(parent, result, name) == parent + ("/results/" + inner);
    CutAtSlash(parent, "/results/", inner);
    CutAtSlash(result, "/logs/", name);
    assert ("/results/" + inner)[9 + |result|..] == inner[|result|..];
  }

  /** And what parses is the name made of its parts. */
  lemma ParsedLog(s: string)
    requires ParseLog(s).Some?
    ensures var p := ParseLog(s).value;
      s == FormatLog(p.parent, p.result, p.name) && Segment(p.parent) && Segment(p.result) && Segment(p.name)
  {
    var parent := FirstPart(s);
    var rest := s[|parent|..];
    var inner := rest[9..];
    var result := FirstPart(inner);
    assert rest[9 + |result|..] == inner[|result|..];
    CutFirst(s, "/results/");
    CutFirst(inner, "/logs/");
    Glued(parent, "/results/", result, "/logs/", inner[|result|..][6..]);
  }

  /** The first message names this log. */
  predicate IsFor(env: Env, parent: string, result: string, name: string) {
    && env.messages != [] && env.messages[0].name == FormatLog(parent, result, name)
    && Segment(parent) && Segment(result) && Segment(name)
  }

  lemma FirstNameParses(env: Env, parent: string, result: string, name: string)
    requires IsFor(env, parent, result, name)
    ensures ParseLog(env.messages[0].name) == Some(Parts(parent, result, name))
  {
    SegmentHasNoSlash(parent);
    SegmentHasNoSlash(result);
    ParseFormatLog(parent, result, name);
  }

  /** An upload gets as far as the stream exactly when the parent passes, the record is found and its backend opens. */
  lemma StartedIff(env: Env, parent: string, result: string, name: string)
    requires IsFor(env, parent, result, name)
    ensures var found := env.find(Parts(parent, result, name));
      Started(env) <==> env.check(parent).None? && found.Good? && env.open(found.value).Streaming?
  {
    FirstNameParses(env, parent, result, name);
  }

  /** The status that is recorded: of the log as opened, with the reason for a failure and whether to try again. */
  predicate StatusIs(was: Log, now: Log, size: nat, cause: Err, retryable: bool) {
    && now.spec == was.spec && now.size == size
    && (now.isStored <==> cause.Eof?)
    && (if cause.Eof? then now.errorOnStore == was.errorOnStore && now.isRetryable == was.isRetryable
        else now.errorOnStore == Text(cause) && now.isRetryable == retryable)
  }

  /** What the handler holds at the stop, if it holds a record and its log. */
  lemma HeldAtTheStop(env: Env, parts: Parts)
    requires env.messages != [] && ParseLog(env.messages[0].name) == Some(parts)
    requires var stop := Received(env).1; stop.rec.Some? && stop.log.Some?
    ensures var (trace, stop) := Received(env); var found := env.find(parts);
      && env.check(parts.parent).None? && found == Good(stop.rec.value)
      && match env.open(stop.rec.value)
         case NotALog(_) => false
         case NoBackend(log, err) => stop == Stop(stop.rec, Some(log), false, err, false) && Written(trace) == 0
         case Streaming(log) =>
           var k := StopsAt(env, 0);
           if k == |env.messages| then stop == Stop(stop.rec, Some(log), true, env.ending, true)
           else if env.messages[k].name != env.messages[0].name then stop == Stop(stop.rec, Some(log), true, OTHER_NAME, false)
           else
             var r := env.read(k, env.messages[k].data);
             r.err.Some? && stop == Stop(stop.rec, Some(log), true, r.err.value, true)
  {
    RunShape(env);
    if !Started(env) {
      NothingCounted(Received(env).0);
    } else {
      assert StopsAt(env, 0) < |env.messages| ==> !Continues(env, StopsAt(env, 0));
    }
  }

  /**
   A status goes to the record found under the three parts of the first message's name, once that name's parent
   has passed the authorizer. It is a success, a failure of the client's stream or of the backend, to be tried
   again, or a second name or a backend that did not open, not to be tried again.
   */
  lemma RecordedIsTheNamedRecord(env: Env, parent: string, result: string, name: string, i: nat)
    requires IsFor(env, parent, result, name) && i < |Upload(env).0| && Upload(env).0[i].Recorded?
    ensures var found := env.find(Parts(parent, result, name)); var e := Upload(env).0[i];
      && env.check(parent).None? && found == Good(e.rec)
      && match env.open(e.rec)
         case NotALog(_) => false
         case NoBackend(log, err) => StatusIs(log, e.log, 0, err, false)
         case Streaming(log) =>
           var k := StopsAt(env, 0); var size := Written(Upload(env).0);
           if k == |env.messages| then StatusIs(log, e.log, size, env.ending, true)
           else if env.messages[k].name != env.messages[0].name then StatusIs(log, e.log, size, OTHER_NAME, false)
           else var r := env.read(k, env.messages[k].data); r.err.Some? && StatusIs(log, e.log, size, r.err.value, true)
  {
    FirstNameParses(env, parent, result, name);
    SizesAgree(env, i);
    RecordedAtTheEnd(env, i);
    RecordIsHeld(env, i);
    HeldAtTheStop(env, Parts(parent, result, name));
  }

  lemma RecordIsHeld(env: Env, i: nat)
    requires i < |Upload(env).0| && (Upload(env).0[i].Recorded? || Upload(env).0[i].Summarized?)
    ensures var stop := Received(env).1;
      && stop.rec.Some? && (Upload(env).0[i].Recorded? ==> Upload(env).0[i].rec == stop.rec.value)
      && (Upload(env).0[i].Summarized? ==> Upload(env).0[i].record == stop.rec.value.name)
  {
    var (trace, stop) := Received(env);
    if i < |trace| { OpenedOrWrote(env, i); }
    EndingNames(env, stop, Written(trace), i - |trace|);
  }

  lemma EndingNames(env: Env, stop: Stop, written: nat, i: nat)
    requires i < |Ending(env, stop, written).0|
    ensures var e := Ending(env, stop, written).0[i];
      && (e.Recorded? ==> stop.rec == Some(e.rec))
      && (e.Summarized? ==> stop.rec.Some? && e.record == stop.rec.value.name)
  {
  }

  /** The summary the client gets names that record. */
  lemma SummaryNamesTheRecord(env: Env, parent: string, result: string, name: string, i: nat)
    requires IsFor(env, parent, result, name) && i < |Upload(env).0| && Upload(env).0[i].Summarized?
    ensures var found := env.find(Parts(parent, result, name)); found.Good? && Upload(env).0[i].record == found.value.name
  {
    FirstNameParses(env, parent, result, name);
    RecordIsHeld(env, i);
  }

  /** What stopped the upload: the first thing to go wrong, or the end of the client's stream. */
  function Why(env: Env): Err {
    if env.messages == [] then env.ending
    else
      match ParseLog(env.messages[0].name)
      case None => BAD_NAME
      case Some(parts) =>
        if env.check(parts.parent).Some? then env.check(parts.parent).value
        else
          match env.find(parts)
          case Bad(e) => e
          case Good(rec) =>
            match env.open(rec)
            case NotALog(e) => e
            case NoBackend(_, e) => e
            case Streaming(_) =>
              var k := StopsAt(env, 0);
              if k == |env.messages| then env.ending
              else if env.messages[k].name != env.messages[0].name then OTHER_NAME
              else match env.read(k, env.messages[k].data).err case Some(e) => e case None => env.ending
  }

  /**
   What the client is told. If the upload failed, why, or that the backend could not even be flushed. If it counts as
   stored, the first thing to fail after it, or nothing. A failure to record or to flush does not hide why it failed.
   */
  lemma AnswerIs(env: Env)
    ensures var flushBad := Started(env) && env.flush.Some?; var answer := Upload(env).1;
      && (!StopIsStored(env) ==>
            answer == Some(if flushBad then Fail("got flush error " + Text(env.flush.value) + " with returnErr: " + Text(Why(env)))
                           else Why(env)))
      && (StopIsStored(env) && env.marshal.None? && env.update.None? ==> answer == if flushBad then env.flush else env.send)
      && (StopIsStored(env) && (env.marshal.Some? || env.update.Some?) ==>
            answer == if flushBad then Some(Fail("got flush error " + Text(env.flush.value) + " with returnErr: " + Text(Eof)))
                      else if env.marshal.Some? then env.marshal else env.update)
  {
    StopsOnEofIff(env);
    RunShape(env);
    StoppedByWhy(env);
  }

  lemma StoppedByWhy(env: Env)
    ensures Received(env).1.cause == Why(env)
  {
  }
}
