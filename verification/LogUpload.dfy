/**
 UpdateLog: the server's end of a client stream of log chunks. Everything outside the handler
 (the gRPC stream, the authorizer, the database, the storage backend) answers through `Env`; every
 effect the handler has on it is an `Event`.
 */
module LogUpload {
  import opened Prelude
  import opened ResultNames

  type Bytes = seq<bv8>

  datatype Err = Eof | Fail(text: string)

  function Text(e: Err): string { if e.Eof? then "EOF" else e.text }

  datatype Answer<T> = Good(value: T) | Bad(err: Err)

  datatype Message = Message(name: string, data: Bytes)

  datatype Parts = Parts(parent: string, result: string, name: string)

  /** The Log kept in the record's data. */
  datatype Log = Log(spec: string, size: nat, isStored: bool, errorOnStore: string, isRetryable: bool)

  datatype Rec = Rec(name: string, etag: string, data: string)

  /** What log.ToStream returns: not a log record, a log without a usable backend, or an open stream. */
  datatype Opening = NotALog(err: Err) | NoBackend(log: Log, err: Err) | Streaming(log: Log)

  /** Bytes a backend reports for one chunk, and its error if any. */
  datatype Reading = Reading(n: nat, err: Option<Err>)

  datatype Env = Env(
    messages: seq<Message>, ending: Err,
    check: string -> Option<Err>, find: Parts -> Answer<Rec>, open: Rec -> Opening,
    read: (nat, Bytes) -> Reading,
    marshal: Option<Err>, update: Option<Err>, flush: Option<Err>, send: Option<Err>)

  datatype Event =
    | Checked(parent: string)
    | Opened(log: Log)
    | Wrote(name: string, data: Bytes, n: nat)
    | Recorded(rec: Rec, log: Log)
    | Flushed
    | Summarized(record: string, bytes: nat)

  /** log.ParseName: parent, result and name of parent/results/result/logs/name. */
  function ParseLog(s: string): Option<Parts> {
    var parent := FirstPart(s);
    var rest := s[|parent|..];
    if !("/results/" <= rest) then None
    else
      var result := FirstPart(rest[9..]);
      var tail := rest[9 + |result|..];
      if "/logs/" <= tail && Segment(parent) && Segment(result) && Segment(tail[6..])
      then Some(Parts(parent, result, tail[6..])) else None
  }

  const BAD_NAME := Fail("name must match the log name pattern")
  const OTHER_NAME := Fail("cannot put logs for multiple records in the same server")

  lemma EmptyNameIsRefused()
    ensures ParseLog("") == None
  {
    assert FirstPart("") == "" && |""[0..]| == 0 && |"/results/"| == 9;
  }

  // ---------- returning ----------

  function FlushFailure(flushErr: Err, cause: Err): Err {
    Fail("got flush error " + Text(flushErr) + " with returnErr: " + Text(cause))
  }

  /** The status written to the record when the stream ends. */
  function Final(log: Log, written: nat, cause: Err, retryable: bool): Log {
    var done := log.(size := written, isStored := cause.Eof?);
    if cause.Eof? then done else done.(errorOnStore := Text(cause), isRetryable := retryable)
  }

  /** Why the receive loop stopped: what the handler then held, and what had failed. */
  datatype Stop = Stop(rec: Option<Rec>, log: Option<Log>, isOpen: bool, cause: Err, retryable: bool)

  /** What is done and answered once the loop has stopped. */
  function Ending(env: Env, stop: Stop, written: nat): (seq<Event>, Option<Err>) {
    var flushed := if stop.isOpen then [Flushed] else [];
    var flushBad := stop.isOpen && env.flush.Some?;
    if stop.rec.None? || stop.log.None? then
      (flushed, Some(if flushBad then FlushFailure(env.flush.value, stop.cause) else stop.cause))
    else if env.marshal.Some? then
      (flushed, Some(if flushBad then FlushFailure(env.flush.value, stop.cause)
                     else if stop.cause.Eof? then env.marshal.value else stop.cause))
    else
      var log := Final(stop.log.value, written, stop.cause, stop.retryable);
      if env.update.Some? then
        (flushed, Some(if flushBad then FlushFailure(env.flush.value, stop.cause)
                       else if stop.cause.Eof? then env.update.value else stop.cause))
      else
        var recorded := [Recorded(stop.rec.value, log)];
        if !stop.cause.Eof? then
          (recorded + flushed, Some(if flushBad then FlushFailure(env.flush.value, stop.cause) else stop.cause))
        else if flushBad then (recorded + flushed, env.flush)
        else (recorded + flushed + [Summarized(stop.rec.value.name, written)], env.send)
  }

  method HandleReturn(env: Env, rec: Option<Rec>, log: Option<Log>, written: nat, isOpen: bool, cause: Err, retryable: bool)
    returns (trace: seq<Event>, err: Option<Err>)
    ensures trace == Ending(env, Stop(rec, log, isOpen, cause, retryable), written).0
    ensures err == Ending(env, Stop(rec, log, isOpen, cause, retryable), written).1
  {
    trace := [];
    if rec.None? || log.None? {
      if isOpen {
        trace := trace + [Flushed];
        if env.flush.Some? { return trace, Some(FlushFailure(env.flush.value, cause)); }
      }
      return trace, Some(cause);
    }
    var resource := log.value;
    resource := resource.(size := written);
    resource := resource.(isStored := cause == Eof);
    if cause != Eof {
      resource := resource.(errorOnStore := Text(cause));
      resource := resource.(isRetryable := retryable);
    }
    if env.marshal.Some? {
      if isOpen {
        trace := trace + [Flushed];
        if env.flush.Some? { return trace, Some(FlushFailure(env.flush.value, cause)); }
      }
      return trace, if cause != Eof then Some(cause) else env.marshal;
    }
    if env.update.Some? {
      if isOpen {
        trace := trace + [Flushed];
        if env.flush.Some? { return trace, Some(FlushFailure(env.flush.value, cause)); }
      }
      return trace, if cause != Eof then Some(cause) else env.update;
    }
    trace := trace + [Recorded(rec.value, resource)];
    if cause == Eof {
      if isOpen {
        trace := trace + [Flushed];
        if env.flush.Some? { return trace, env.flush; }
      }
      trace := trace + [Summarized(rec.value.name, written)];
      return trace, env.send;
    }
    if isOpen {
      trace := trace + [Flushed];
      if env.flush.Some? { return trace, Some(FlushFailure(env.flush.value, cause)); }
    }
    return trace, Some(cause);
  }

  // ---------- receiving ----------

  /** The record and log opened by the first message, if it gets that far. */
  datatype Session = Session(parent: string, rec: Rec, log: Log)

  /** How far the first message gets before any byte is written. */
  function Begin(env: Env, name: string): (seq<Event>, Answer<Session>, Stop) {
    var stop := Stop(None, None, false, BAD_NAME, true);
    var parts := ParseLog(name);
    if parts.None? then ([], Bad(BAD_NAME), stop)
    else
      var checked := [Checked(parts.value.parent)];
      var denied := env.check(parts.value.parent);
      if denied.Some? then (checked, Bad(denied.value), stop.(cause := denied.value, retryable := false))
      else
        match env.find(parts.value)
        case Bad(e) => (checked, Bad(e), stop.(cause := e))
        case Good(rec) =>
          match env.open(rec)
          case NotALog(e) => (checked, Bad(e), Stop(Some(rec), None, false, e, false))
          case NoBackend(log, e) => (checked, Bad(e), Stop(Some(rec), Some(log), false, e, false))
          case Streaming(log) => (checked + [Opened(log)], Good(Session(parts.value.parent, rec, log)), stop)
  }

  function Write(env: Env, i: nat): Event
    requires i < |env.messages|
  {
    Wrote(env.messages[i].name, env.messages[i].data, env.read(i, env.messages[i].data).n)
  }

  function WritesFrom(env: Env, i: nat, k: nat): (w: seq<Event>)
    requires i <= k <= |env.messages|
    ensures |w| == k - i && forall j :: 0 <= j < |w| ==> w[j] == Write(env, i + j)
  {
    seq(k - i, j requires 0 <= j < k - i => Write(env, i + j))
  }

  /** The chunk a backend fails on, or one of another name, stops the loop. */
  predicate Continues(env: Env, i: nat)
    requires i < |env.messages|
  {
    env.messages[i].name == env.messages[0].name && env.read(i, env.messages[i].data).err.None?
  }

  /** The first message at or after `i` that stops the loop, or the end of the stream. */
  function StopsAt(env: Env, i: nat): (k: nat)
    requires i <= |env.messages|
    ensures i <= k <= |env.messages|
    ensures k < |env.messages| ==> !Continues(env, k)
    ensures forall j :: i <= j < k ==> Continues(env, j)
    decreases |env.messages| - i
  {
    if i == |env.messages| || !Continues(env, i) then i else StopsAt(env, i + 1)
  }

  /** Writes of a session that stops at message `k`, and why it stops there. */
  function Halt(env: Env, s: Session, k: nat): (seq<Event>, Stop)
    requires k <= |env.messages|
  {
    var stop := Stop(Some(s.rec), Some(s.log), true, env.ending, true);
    if k == |env.messages| then (WritesFrom(env, 0, k), stop)
    else if env.messages[k].name != env.messages[0].name then
      (WritesFrom(env, 0, k), stop.(cause := OTHER_NAME, retryable := false))
    else
      var r := env.read(k, env.messages[k].data);
      (WritesFrom(env, 0, k + 1), stop.(cause := if r.err.Some? then r.err.value else env.ending))
  }

  /** Everything that happens up to the stop. */
  function Received(env: Env): (seq<Event>, Stop) {
    if env.messages == [] then ([], Stop(None, None, false, env.ending, true))
    else
      var (opening, session, stop) := Begin(env, env.messages[0].name);
      match session
      case Bad(_) => (opening, stop)
      case Good(s) => var (writes, halt) := Halt(env, s, StopsAt(env, 0)); (opening + writes, halt)
  }

  /** Messages before `i` were all written, in the session the first one opened. */
  predicate Running(env: Env, i: nat, trace: seq<Event>, rec: Option<Rec>, log: Option<Log>)
    requires i <= |env.messages| && env.messages != []
  {
    var (opening, session, _) := Begin(env, env.messages[0].name);
    && session.Good? && rec == Some(session.value.rec) && log == Some(session.value.log)
    && trace == opening + WritesFrom(env, 0, i) && StopsAt(env, 0) == StopsAt(env, i)
  }

  function Written(trace: seq<Event>): nat {
    if trace == [] then 0
    else Written(trace[..|trace| - 1]) + (if trace[|trace| - 1].Wrote? then trace[|trace| - 1].n else 0)
  }

  function Upload(env: Env): (seq<Event>, Option<Err>) {
    var (trace, stop) := Received(env);
    var (ending, err) := Ending(env, stop, Written(trace));
    (trace + ending, err)
  }

  lemma WrittenStep(trace: seq<Event>, e: Event)
    ensures Written(trace + [e]) == Written(trace) + (if e.Wrote? then e.n else 0)
  {
    assert (trace + [e])[..|trace|] == trace;
  }

  /** What the handler holds between messages. */
  datatype Held = Held(name: string, parts: Parts, rec: Option<Rec>, log: Option<Log>, isOpen: bool)

  const NOTHING := Held("", Parts("", "", ""), None, None, false)

  predicate InSession(h: Held) { h.name != "" && h.rec.Some? && h.log.Some? && h.isOpen }

  /** The part of the loop body before the chunk is stored: name, authorization, record, stream. */
  method Admit(env: Env, recv: Message, held: Held) returns (events: seq<Event>, h: Held, stop: Option<Stop>)
    requires held == NOTHING || InSession(held)
    ensures held == NOTHING ==>
      var (opening, session, halt) := Begin(env, recv.name);
      && events == opening
      && stop == (if session.Bad? then Some(halt) else None)
      && (session.Good? ==>
            InSession(h) && h.name == recv.name && h.rec == Some(session.value.rec) && h.log == Some(session.value.log))
    ensures InSession(held) ==>
      && h == held && events == []
      && stop == (if held.name != recv.name then Some(Stop(held.rec, held.log, true, OTHER_NAME, false)) else None)
  {
    EmptyNameIsRefused();
    events, h := [], held;
    if h.name == "" {
      h := h.(name := recv.name);
      var parsed := ParseLog(h.name);
      if parsed.None? { return events, h, Some(Stop(h.rec, h.log, h.isOpen, BAD_NAME, true)); }
      h := h.(parts := parsed.value);
      events := events + [Checked(h.parts.parent)];
      var denied := env.check(h.parts.parent);
      if denied.Some? { return events, h, Some(Stop(h.rec, h.log, h.isOpen, denied.value, false)); }
    }
    if h.name != recv.name { return events, h, Some(Stop(h.rec, h.log, h.isOpen, OTHER_NAME, false)); }
    if h.rec.None? {
      var found := env.find(h.parts);
      if found.Bad? { return events, h, Some(Stop(h.rec, h.log, h.isOpen, found.err, true)); }
      h := h.(rec := Some(found.value));
    }
    if !h.isOpen {
      match env.open(h.rec.value) {
        case NotALog(e) => return events, h, Some(Stop(h.rec, None, h.isOpen, e, false));
        case NoBackend(log, e) => return events, h, Some(Stop(h.rec, Some(log), h.isOpen, e, false));
        case Streaming(log) =>
          h := h.(log := Some(log), isOpen := true);
          events := events + [Opened(log)];
      }
    }
    return events, h, None;
  }

  lemma BeginWritesNothing(env: Env, name: string)
    ensures Written(Begin(env, name).0) == 0
  {
    var opening := Begin(env, name).0;
    assert |opening| <= 2 && forall i :: 0 <= i < |opening| ==> !opening[i].Wrote?;
    if |opening| == 2 {
      WrittenStep([], opening[0]);
      WrittenStep([opening[0]], opening[1]);
      assert opening == [opening[0]] + [opening[1]];
    }
  }

  lemma RunsOn(env: Env, i: nat, trace: seq<Event>, rec: Option<Rec>, log: Option<Log>)
    requires i < |env.messages| && Running(env, i, trace, rec, log) && Continues(env, i)
    ensures Running(env, i + 1, trace + [Write(env, i)], rec, log)
  {
    assert WritesFrom(env, 0, i + 1) == WritesFrom(env, 0, i) + [Write(env, i)];
  }

  lemma RunsOut(env: Env, trace: seq<Event>, rec: Option<Rec>, log: Option<Log>)
    requires env.messages != [] && Running(env, |env.messages|, trace, rec, log)
    ensures Received(env) == (trace, Stop(rec, log, true, env.ending, true))
  {
  }

  lemma StopsHere(env: Env, i: nat, trace: seq<Event>, rec: Option<Rec>, log: Option<Log>)
    requires i < |env.messages| && Running(env, i, trace, rec, log) && !Continues(env, i)
    ensures env.messages[i].name != env.messages[0].name ==>
      Received(env) == (trace, Stop(rec, log, true, OTHER_NAME, false))
    ensures env.messages[i].name == env.messages[0].name ==>
      var e := env.read(i, env.messages[i].data).err;
      e.Some? && Received(env) == (trace + [Write(env, i)], Stop(rec, log, true, e.value, true))
  {
    assert StopsAt(env, 0) == i;
    assert WritesFrom(env, 0, i + 1) == WritesFrom(env, 0, i) + [Write(env, i)];
    var (opening, session, _) := Begin(env, env.messages[0].name);
    assert opening + (WritesFrom(env, 0, i) + [Write(env, i)]) == trace + [Write(env, i)];
  }

  lemma RefusedAtOnce(env: Env)
    requires env.messages != [] && Begin(env, env.messages[0].name).1.Bad?
    ensures Received(env) == (Begin(env, env.messages[0].name).0, Begin(env, env.messages[0].name).2)
  {
  }

  lemma SessionStarts(env: Env)
    requires env.messages != [] && Begin(env, env.messages[0].name).1.Good?
    ensures var (opening, session, _) := Begin(env, env.messages[0].name);
      Running(env, 0, opening, Some(session.value.rec), Some(session.value.log))
  {
    assert Begin(env, env.messages[0].name).0 + WritesFrom(env, 0, 0) == Begin(env, env.messages[0].name).0;
  }

  /** The receive loop; each of its exits goes on to HandleReturn with the `stop` it returns. */
  method Receive(env: Env) returns (trace: seq<Event>, bytesWritten: nat, stop: Stop)
    ensures trace == Received(env).0 && stop == Received(env).1 && bytesWritten == Written(trace)
  {
    trace, bytesWritten := [], 0;
    var h, i := NOTHING, 0;
    while true
      invariant 0 <= i <= |env.messages|
      invariant bytesWritten == Written(trace)
      invariant i == 0 ==> trace == [] && h == NOTHING
      invariant i > 0 ==> InSession(h) && h.name == env.messages[0].name && Running(env, i, trace, h.rec, h.log)
      decreases |env.messages| - i
    {
      if i == |env.messages| {
        if i > 0 { RunsOut(env, trace, h.rec, h.log); }
        return trace, bytesWritten, Stop(h.rec, h.log, h.isOpen, env.ending, true);
      }
      var recv, events, refused := env.messages[i], [], None;
      events, h, refused := Admit(env, recv, h);
      BeginWritesNothing(env, recv.name);
      trace := trace + events;
      if refused.Some? {
        if i > 0 { StopsHere(env, i, trace, h.rec, h.log); } else { RefusedAtOnce(env); }
        return trace, bytesWritten, refused.value;
      }
      if i == 0 { SessionStarts(env); }
      var reading := env.read(i, recv.data);
      WrittenStep(trace, Wrote(h.name, recv.data, reading.n));
      if Continues(env, i) { RunsOn(env, i, trace, h.rec, h.log); } else { StopsHere(env, i, trace, h.rec, h.log); }
      trace := trace + [Wrote(h.name, recv.data, reading.n)];
      bytesWritten := bytesWritten + reading.n;
      if reading.err.Some? { return trace, bytesWritten, Stop(h.rec, h.log, h.isOpen, reading.err.value, true); }
      i := i + 1;
    }
  }

  method UpdateLog(env: Env) returns (trace: seq<Event>, err: Option<Err>)
    ensures trace == Upload(env).0 && err == Upload(env).1
  {
    var bytesWritten, stop;
    trace, bytesWritten, stop := Receive(env);
    var ending;
    ending, err := HandleReturn(env, stop.rec, stop.log, bytesWritten, stop.isOpen, stop.cause, stop.retryable);
    trace := trace + ending;
  }
}
