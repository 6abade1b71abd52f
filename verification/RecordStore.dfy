/** Records and Results as the API server keeps them: create, get, update under an etag, delete. */
module RecordStore {
  import opened Prelude

  type Name = string

  /** An etag names the record's id and the nanosecond of the write that made it. */
  datatype Etag = NoEtag | Etag(uid: string, nanos: int)

  datatype Data = Data(kind: string, value: string)

  datatype Row = Row(uid: string, created: int, updated: int, etag: Etag, data: Data)

  datatype Code = Ok | NotFound | AlreadyExists | FailedPrecondition | InvalidArgument

  type Rows = map<Name, Row>

  /** Updating a Record merges what is sent into what is stored; updating a Result replaces it. */
  datatype Table = Records | Results

  /** proto.Merge of the request's data into the stored one: fields left empty keep their value. */
  function Merge(stored: Data, sent: Data): Data {
    Data(if sent.kind == "" then stored.kind else sent.kind, if sent.value == "" then stored.value else sent.value)
  }

  function Updated(t: Table, stored: Data, sent: Data): Data {
    if t.Records? then Merge(stored, sent) else sent
  }

  // ---------- each handler as one atomic transaction ----------

  function CreateSpec(rows: Rows, name: Name, uid: string, data: Data, now: int): (Rows, Code) {
    if name in rows then (rows, AlreadyExists)
    else (rows[name := Row(uid, now, now, Etag(uid, now), data)], Ok)
  }

  function UpdateSpec(t: Table, rows: Rows, name: Name, etag: Etag, data: Data, valid: bool, now: int): (Rows, Code) {
    if name !in rows then (rows, NotFound)
    else
      var r := rows[name];
      if etag != NoEtag && etag != r.etag then (rows, FailedPrecondition)
      else if !valid then (rows, InvalidArgument)
      else (rows[name := r.(data := Updated(t, r.data, data), updated := now, etag := Etag(r.uid, now))], Ok)
  }

  function DeleteSpec(rows: Rows, name: Name): (Rows, Code) {
    if name !in rows then (rows, NotFound) else (rows - {name}, Ok)
  }

  class Server {
    const table: Table
    var rows: Rows

    constructor (table: Table)
      ensures this.table == table && rows == map[]
    {
      this.table, rows := table, map[];
    }

    method Create(name: Name, uid: string, data: Data, now: int) returns (code: Code)
      modifies this
      ensures (rows, code) == CreateSpec(old(rows), name, uid, data, now)
    {
      var store := Row(uid, now, now, NoEtag, data);
      store := store.(etag := Etag(store.uid, store.updated));
      if name in rows { return AlreadyExists; }
      rows := rows[name := store];
      return Ok;
    }

    method Get(name: Name) returns (row: Option<Row>)
      ensures row == if name in rows then Some(rows[name]) else None
    {
      if name in rows { return Some(rows[name]); }
      return None;
    }

    method Update(name: Name, etag: Etag, data: Data, valid: bool, now: int) returns (code: Code)
      modifies this
      ensures (rows, code) == UpdateSpec(table, old(rows), name, etag, data, valid, now)
    {
      var found := Get(name);
      if found.None? { return NotFound; }
      var r := found.value;
      if etag != NoEtag && etag != r.etag { return FailedPrecondition; }
      var message := r.(data := if table == Records then Merge(r.data, data) else data);
      message := message.(updated := now);
      if !valid { return InvalidArgument; }
      message := message.(etag := Etag(message.uid, message.updated));
      rows := rows[name := message];
      return Ok;
    }

    method Delete(name: Name) returns (code: Code)
      modifies this
      ensures (rows, code) == DeleteSpec(old(rows), name)
    {
      var found := Get(name);
      if found.None? { return NotFound; }
      rows := rows - {name};
      return Ok;
    }
  }

  // ---------- clients that read, think and write ----------

  type Client = nat

  /** What a client read, and how many writes had been made by then. */
  datatype View = View(name: Name, row: Row, at: nat)

  /** One write or deletion: the record it touched, and when. */
  datatype Write = Write(name: Name, at: int)

  /** `log` holds every write and deletion, in order. The clock never goes back, but it may stand still. */
  datatype Sys = Sys(rows: Rows, views: map<Client, View>, log: seq<Write>, clock: int)

  datatype Step =
    | Create(name: Name, uid: string, data: Data, elapsed: nat)
    | Get(client: Client, name: Name)
    | UpdateWithEtag(client: Client, data: Data, valid: bool, elapsed: nat)
    | UpdateBlindly(name: Name, data: Data, valid: bool, elapsed: nat)
    | Delete(name: Name)

  function Commit(s: Sys, r: (Rows, Code), name: Name, now: int): Sys {
    if r.1.Ok? then s.(rows := r.0, log := s.log + [Write(name, now)], clock := now) else s.(clock := now)
  }

  /** The answer to a client's update of the record it read, at the given time. */
  function EtagUpdate(t: Table, s: Sys, c: Client, data: Data, valid: bool, now: int): (Rows, Code)
    requires c in s.views
  {
    UpdateSpec(t, s.rows, s.views[c].name, s.views[c].row.etag, data, valid, now)
  }

  function Next(t: Table, s: Sys, step: Step): Sys {
    match step
    case Create(name, uid, data, elapsed) =>
      Commit(s, CreateSpec(s.rows, name, uid, data, s.clock + elapsed), name, s.clock + elapsed)
    case Get(c, name) =>
      if name in s.rows then s.(views := s.views[c := View(name, s.rows[name], |s.log|)]) else s
    case UpdateWithEtag(c, data, valid, elapsed) =>
      if c !in s.views then s
      else Commit(s, EtagUpdate(t, s, c, data, valid, s.clock + elapsed), s.views[c].name, s.clock + elapsed)
    case UpdateBlindly(name, data, valid, elapsed) =>
      Commit(s, UpdateSpec(t, s.rows, name, NoEtag, data, valid, s.clock + elapsed), name, s.clock + elapsed)
    case Delete(name) => Commit(s, DeleteSpec(s.rows, name), name, s.clock)
  }

  function RunSteps(t: Table, steps: seq<Step>): Sys {
    if steps == [] then Sys(map[], map[], [], 0) else Next(t, RunSteps(t, steps[..|steps| - 1]), steps[|steps| - 1])
  }

  /** No write to the record since the client read it. */
  predicate Untouched(s: Sys, v: View) {
    v.at <= |s.log| && forall i :: v.at <= i < |s.log| ==> s.log[i].name != v.name
  }

  /** Every write to the record since the client read it fell in the nanosecond of the write it read. */
  predicate SameInstant(s: Sys, v: View) {
    forall i :: v.at <= i < |s.log| && s.log[i].name == v.name ==> s.log[i].at == v.row.updated
  }

  predicate RowSound(s: Sys, n: Name) {
    n in s.rows ==> s.rows[n].updated <= s.clock && s.rows[n].etag == Etag(s.rows[n].uid, s.rows[n].updated)
  }

  predicate LogSound(s: Sys, v: View) {
    && v.at <= |s.log| && v.row.updated <= s.clock
    && forall i :: v.at <= i < |s.log| ==> v.row.updated <= s.log[i].at <= s.clock
  }

  predicate ViewSound(s: Sys, v: View) {
    && LogSound(s, v)
    && v.row.etag == Etag(v.row.uid, v.row.updated)
    && (Untouched(s, v) ==> v.name in s.rows && s.rows[v.name] == v.row)
    && (!Untouched(s, v) && v.name in s.rows ==> (SameInstant(s, v) <==> s.rows[v.name].updated == v.row.updated))
  }

  predicate ClientSound(s: Sys, c: Client) { c in s.views ==> ViewSound(s, s.views[c]) }

  /** What one transaction does to record `n`: nothing, or, if it is the one named, a new stamp. */
  predicate GoodWrite(rows: Rows, clock: int, r: (Rows, Code), name: Name, now: int, n: Name) {
    && now >= clock
    && (r.1.Ok? && n != name ==> (n in r.0 <==> n in rows) && (n in rows ==> r.0[n] == rows[n]))
    && (r.1.Ok? && n == name && n in r.0 ==> r.0[n].updated == now && r.0[n].etag == Etag(r.0[n].uid, now))
  }

  /** The transaction a step runs, with the record it names and the time it runs at. */
  function Transaction(t: Table, s: Sys, step: Step): Option<((Rows, Code), Name, int)> {
    match step
    case Create(name, uid, data, elapsed) =>
      Some((CreateSpec(s.rows, name, uid, data, s.clock + elapsed), name, s.clock + elapsed))
    case Get(_, _) => None
    case UpdateWithEtag(c, data, valid, elapsed) =>
      if c !in s.views then None
      else Some((EtagUpdate(t, s, c, data, valid, s.clock + elapsed), s.views[c].name, s.clock + elapsed))
    case UpdateBlindly(name, data, valid, elapsed) =>
      Some((UpdateSpec(t, s.rows, name, NoEtag, data, valid, s.clock + elapsed), name, s.clock + elapsed))
    case Delete(name) => Some((DeleteSpec(s.rows, name), name, s.clock))
  }

  lemma StepsWriteWell(t: Table, s: Sys, step: Step, n: Name)
    ensures match Transaction(t, s, step)
      case Some((r, name, now)) => Next(t, s, step) == Commit(s, r, name, now) && GoodWrite(s.rows, s.clock, r, name, now, n)
      case None => step.Get? || Next(t, s, step) == s
  {
  }

  lemma CommitKeepsRow(s: Sys, r: (Rows, Code), name: Name, now: int, n: Name)
    requires RowSound(s, n) && GoodWrite(s.rows, s.clock, r, name, now, n)
    ensures RowSound(Commit(s, r, name, now), n)
  {
  }

  /** How one more write changes what a view says about the log. */
  lemma LogGrows(s: Sys, s': Sys, v: View, name: Name, now: int)
    requires LogSound(s, v) && s'.log == s.log + [Write(name, now)] && s'.clock == now >= s.clock
    ensures LogSound(s', v)
    ensures Untouched(s', v) <==> Untouched(s, v) && name != v.name
    ensures SameInstant(s', v) <==> SameInstant(s, v) && (name == v.name ==> now == v.row.updated)
    ensures now == v.row.updated ==> SameInstant(s, v)
  {
    assert s'.log[|s.log|] == Write(name, now);
    assert forall i :: 0 <= i < |s.log| ==> s'.log[i] == s.log[i];
  }

  /** A committed write touches the views of the record it names, and no others. */
  lemma CommitKeepsView(s: Sys, r: (Rows, Code), name: Name, now: int, v: View)
    requires ViewSound(s, v) && GoodWrite(s.rows, s.clock, r, name, now, v.name)
    ensures ViewSound(Commit(s, r, name, now), v)
  {
    var s' := Commit(s, r, name, now);
    if r.1.Ok? {
      LogGrows(s, s', v, name, now);
    } else {
      assert Untouched(s', v) <==> Untouched(s, v);
      assert SameInstant(s', v) <==> SameInstant(s, v);
    }
  }

  lemma StepKeepsRow(t: Table, s: Sys, step: Step, n: Name)
    requires RowSound(s, n)
    ensures RowSound(Next(t, s, step), n)
  {
    StepsWriteWell(t, s, step, n);
    match Transaction(t, s, step)
    case Some((r, name, now)) => CommitKeepsRow(s, r, name, now, n);
    case None =>
  }

  lemma StepKeepsClient(t: Table, s: Sys, step: Step, c: Client)
    requires ClientSound(s, c)
    requires step.Get? ==> RowSound(s, step.name)
    ensures ClientSound(Next(t, s, step), c)
  {
    if step.Get? {
      GetKeeps(t, s, step.client, step.name, c);
    } else if c in s.views {
      var v := s.views[c];
      StepsWriteWell(t, s, step, v.name);
      match Transaction(t, s, step)
      case Some((r, name, now)) => CommitKeepsView(s, r, name, now, v);
      case None =>
    }
  }

  lemma GetKeeps(t: Table, s: Sys, reader: Client, name: Name, c: Client)
    requires ClientSound(s, c) && RowSound(s, name)
    ensures ClientSound(Next(t, s, Get(reader, name)), c)
  {
    var s' := Next(t, s, Get(reader, name));
    if c in s'.views {
      assert Untouched(s', s'.views[c]) <==> Untouched(s, s'.views[c]);
      assert SameInstant(s', s'.views[c]) <==> SameInstant(s, s'.views[c]);
    }
  }

  /**
   In every interleaving each record carries the etag of its last write, and each client's view is of
   the current record, or of one that has been written since, in the same nanosecond or a later one.
   */
  lemma {:induction false} InvariantHolds(t: Table, steps: seq<Step>, c: Client, n: Name)
    ensures RowSound(RunSteps(t, steps), n) && ClientSound(RunSteps(t, steps), c)
  {
    if steps != [] {
      var before, last := steps[..|steps| - 1], steps[|steps| - 1];
      InvariantHolds(t, before, c, n);
      if last.Get? { InvariantHolds(t, before, c, last.name); }
      StepKeepsRow(t, RunSteps(t, before), last, n);
      StepKeepsClient(t, RunSteps(t, before), last, c);
    }
  }

  /** The record is there under the id the client read. */
  predicate SameRecord(s: Sys, v: View) { v.name in s.rows && s.rows[v.name].uid == v.row.uid }

  /**
   In every interleaving of clients, an update under an etag succeeds if and only if the data is valid,
   the record is still the one read, and every write to it since fell in the nanosecond of the write read. It is
   answered with NotFound if and only if the record is gone, and with FailedPrecondition if and only if it is
   another one or was written at another time; bad data comes last; and a refused update changes nothing.
   */
  lemma UpdateSucceedsIff(t: Table, steps: seq<Step>, c: Client, data: Data, valid: bool, now: int)
    requires c in RunSteps(t, steps).views
    ensures var s := RunSteps(t, steps); var v := s.views[c];
      && (EtagUpdate(t, s, c, data, valid, now).1.Ok? <==> valid && SameRecord(s, v) && SameInstant(s, v))
      && (EtagUpdate(t, s, c, data, valid, now).1.NotFound? <==> v.name !in s.rows)
      && (EtagUpdate(t, s, c, data, valid, now).1.FailedPrecondition? <==>
            v.name in s.rows && !(SameRecord(s, v) && SameInstant(s, v)))
      && (EtagUpdate(t, s, c, data, valid, now).1.InvalidArgument? <==> !valid && SameRecord(s, v) && SameInstant(s, v))
      && (!EtagUpdate(t, s, c, data, valid, now).1.Ok? ==> EtagUpdate(t, s, c, data, valid, now).0 == s.rows)
  {
    var s := RunSteps(t, steps);
    InvariantHolds(t, steps, c, s.views[c].name);
    assert ViewSound(s, s.views[c]);
  }

  /** An update is lost, overwritten unseen, exactly when there were such writes and the record is still that one. */
  lemma UpdateIsLostIff(t: Table, steps: seq<Step>, c: Client, data: Data, now: int)
    requires c in RunSteps(t, steps).views
    ensures var s := RunSteps(t, steps); var v := s.views[c];
      (EtagUpdate(t, s, c, data, true, now).1.Ok? && !Untouched(s, v)) <==>
      (SameRecord(s, v) && SameInstant(s, v) && exists i :: v.at <= i < |s.log| && s.log[i].name == v.name)
  {
    var s := RunSteps(t, steps);
    UpdateSucceedsIff(t, steps, c, data, true, now);
    InvariantHolds(t, steps, c, s.views[c].name);
    assert ViewSound(s, s.views[c]);
  }

  /** Every write happens later than everything before it. */
  predicate ClockAdvances(step: Step) {
    match step
    case Create(_, _, _, elapsed) => elapsed > 0
    case UpdateWithEtag(_, _, _, elapsed) => elapsed > 0
    case UpdateBlindly(_, _, _, elapsed) => elapsed > 0
    case _ => true
  }

  predicate Fresh(steps: seq<Step>) { forall i :: 0 <= i < |steps| ==> ClockAdvances(steps[i]) }

  /** A record written since it was read carries a later time. */
  predicate Later(s: Sys, v: View) {
    !Untouched(s, v) && v.name in s.rows ==> s.rows[v.name].updated > v.row.updated
  }

  lemma StepKeepsLater(t: Table, s: Sys, step: Step, v: View)
    requires LogSound(s, v) && Later(s, v) && ClockAdvances(step) && !step.Get?
    ensures Later(Next(t, s, step), v)
  {
    StepsWriteWell(t, s, step, v.name);
    var s' := Next(t, s, step);
    match Transaction(t, s, step)
    case Some((r, name, now)) =>
      if r.1.Ok? { LogGrows(s, s', v, name, now); } else { assert Untouched(s', v) <==> Untouched(s, v); }
    case None =>
  }

  lemma {:induction false} AdvancingClock(t: Table, steps: seq<Step>, c: Client)
    requires Fresh(steps) && c in RunSteps(t, steps).views
    ensures Later(RunSteps(t, steps), RunSteps(t, steps).views[c])
  {
    var before, last := steps[..|steps| - 1], steps[|steps| - 1];
    var s, s' := RunSteps(t, before), RunSteps(t, steps);
    if c in s.views {
      var v := s.views[c];
      AdvancingClock(t, before, c);
      if last.Get? {
        assert Untouched(s', v) <==> Untouched(s, v);
      } else {
        InvariantHolds(t, before, c, v.name);
        StepKeepsLater(t, s, last, v);
      }
    }
  }

  /** So with a clock that advances no update is lost: one succeeds if and only if nobody wrote in between. */
  lemma UpdateSucceedsIffUntouched(t: Table, steps: seq<Step>, c: Client, data: Data, valid: bool, now: int)
    requires Fresh(steps) && c in RunSteps(t, steps).views
    ensures var s := RunSteps(t, steps);
      EtagUpdate(t, s, c, data, valid, now).1.Ok? <==> Untouched(s, s.views[c]) && valid
  {
    var s := RunSteps(t, steps);
    UpdateSucceedsIff(t, steps, c, data, valid, now);
    InvariantHolds(t, steps, c, s.views[c].name);
    AdvancingClock(t, steps, c);
  }

  /** If the clock may stand still between writes, an update can succeed on top of one it never saw. */
  lemma StandingClockLosesUpdates(t: Table)
    ensures exists steps, c, data ::
      c in RunSteps(t, steps).views
      && EtagUpdate(t, RunSteps(t, steps), c, data, true, RunSteps(t, steps).clock).1.Ok?
      && !Untouched(RunSteps(t, steps), RunSteps(t, steps).views[c])
  {
    var d := Data("t", "1");
    var s1, s2, s3 := [Create("r", "u", d, 0)], [Create("r", "u", d, 0), Get(0, "r")],
                      [Create("r", "u", d, 0), Get(0, "r"), UpdateBlindly("r", Data("t", "2"), true, 0)];
    assert s3[..2] == s2 && s2[..1] == s1 && s1[..0] == [];
    assert RunSteps(t, []) == Sys(map[], map[], [], 0);
    var a := RunSteps(t, s1);
    assert a == Next(t, RunSteps(t, []), s1[0]);
    var b := RunSteps(t, s2);
    assert b == Next(t, a, s2[1]);
    var e := RunSteps(t, s3);
    assert e == Next(t, b, s3[2]);
    assert e.views[0].at == 1 && e.log == [Write("r", 0), Write("r", 0)] && e.log[1].name == e.views[0].name;
    assert !Untouched(e, e.views[0]);
    assert EtagUpdate(t, e, 0, d, true, e.clock).1.Ok?;
  }

  lemma StepKeepsIdentity(t: Table, s: Sys, step: Step, name: Name)
    requires name in s.rows && step != Delete(name)
    ensures var s' := Next(t, s, step);
      name in s'.rows && s'.rows[name].uid == s.rows[name].uid && s'.rows[name].created == s.rows[name].created
  {
  }

  /** Over any further steps, whatever clients send, only deletion ends a record's id and creation time. */
  lemma {:induction false} IdentityIsImmutable(t: Table, steps: seq<Step>, more: seq<Step>, name: Name)
    requires name in RunSteps(t, steps).rows && Delete(name) !in more
    ensures var s, s' := RunSteps(t, steps), RunSteps(t, steps + more);
      name in s'.rows && s'.rows[name].uid == s.rows[name].uid && s'.rows[name].created == s.rows[name].created
  {
    if more == [] {
      assert steps + more == steps;
    } else {
      var k := |more| - 1;
      assert steps + more == steps + more[..k] + [more[k]];
      IdentityIsImmutable(t, steps, more[..k], name);
      StepKeepsIdentity(t, RunSteps(t, steps + more[..k]), more[k], name);
    }
  }

  // ---------- what is stored ----------

  /** The step writes the record called `name`: it is created, or an update of it succeeds. */
  predicate Writes(t: Table, s: Sys, step: Step, name: Name) {
    match step
    case Create(n, _, _, _) => n == name && n !in s.rows
    case UpdateWithEtag(c, data, valid, elapsed) =>
      c in s.views && s.views[c].name == name && EtagUpdate(t, s, c, data, valid, s.clock + elapsed).1.Ok?
    case UpdateBlindly(n, _, valid, _) => n == name && n in s.rows && valid
    case _ => false
  }

  /** The field has what was sent, or, if nothing was sent for it, what was stored. */
  predicate Merged(stored: string, sent: string, now: string) {
    (sent != "" ==> now == sent) && (sent == "" ==> now == stored)
  }

  /** What a write leaves in the record, field by field. */
  predicate Leaves(t: Table, s: Sys, step: Step, name: Name, row: Row) {
    if step.Create? then
      && row.uid == step.uid && row.created == row.updated == s.clock + step.elapsed
      && row.data.kind == step.data.kind && row.data.value == step.data.value
    else if name in s.rows && (step.UpdateWithEtag? || step.UpdateBlindly?) then
      var stored := s.rows[name];
      && row.uid == stored.uid && row.created == stored.created && row.updated == s.clock + step.elapsed
      && (t.Records? ==>
            Merged(stored.data.kind, step.data.kind, row.data.kind) && Merged(stored.data.value, step.data.value, row.data.value))
      && (t.Results? ==> row.data.kind == step.data.kind && row.data.value == step.data.value)
    else false
  }

  lemma WriteLeaves(t: Table, s: Sys, step: Step, name: Name)
    requires Writes(t, s, step, name)
    ensures name in Next(t, s, step).rows && Leaves(t, s, step, name, Next(t, s, step).rows[name])
  {
  }

  lemma QuietStepKeeps(t: Table, s: Sys, step: Step, name: Name)
    requires name in s.rows && !Writes(t, s, step, name) && step != Delete(name)
    ensures name in Next(t, s, step).rows && Next(t, s, step).rows[name] == s.rows[name]
  {
  }

  predicate WritesAt(t: Table, steps: seq<Step>, i: nat, name: Name)
    requires i < |steps|
  {
    Writes(t, RunSteps(t, steps[..i]), steps[i], name)
  }

  /** Step `i` writes the record, and no step after it and before `j` writes or deletes it. */
  predicate LastWriteBefore(t: Table, steps: seq<Step>, i: nat, j: nat, name: Name)
    requires i < j <= |steps|
  {
    WritesAt(t, steps, i, name) && forall m :: i < m < j ==> !WritesAt(t, steps, m, name) && steps[m] != Delete(name)
  }

  lemma {:induction false} LastWriteStays(t: Table, steps: seq<Step>, i: nat, j: nat, name: Name)
    requires i < j <= |steps| && LastWriteBefore(t, steps, i, j, name)
    ensures var s := RunSteps(t, steps[..j]);
      name in s.rows && Leaves(t, RunSteps(t, steps[..i]), steps[i], name, s.rows[name])
  {
    assert steps[..j][..j - 1] == steps[..j - 1];
    if j == i + 1 {
      WriteLeaves(t, RunSteps(t, steps[..i]), steps[i], name);
    } else {
      LastWriteStays(t, steps, i, j - 1, name);
      assert !WritesAt(t, steps, j - 1, name);
      QuietStepKeeps(t, RunSteps(t, steps[..j - 1]), steps[j - 1], name);
    }
  }

  /**
   In every interleaving, a client that reads a record sees what the last write of it left, field by field: what was
   sent on creation; after an update, each field sent that is not empty and the stored one otherwise (for a Result,
   just what was sent); the first id and creation time; and the time of the write.
   */
  lemma ReadsTheLastWrite(t: Table, steps: seq<Step>, i: nat, j: nat, name: Name, c: Client)
    requires i < j < |steps| && LastWriteBefore(t, steps, i, j, name) && steps[j] == Get(c, name)
    ensures var s := RunSteps(t, steps[..j + 1]);
      c in s.views && s.views[c].name == name && Leaves(t, RunSteps(t, steps[..i]), steps[i], name, s.views[c].row)
  {
    LastWriteStays(t, steps, i, j, name);
    assert steps[..j + 1][..j] == steps[..j];
  }

  /** A record cannot be created twice; one that was deleted is not found, and can be created again. */
  lemma CreateAndDeleteAnswer(t: Table, steps: seq<Step>, name: Name, uid: string, c: Client, data: Data, valid: bool, now: int)
    ensures var s := RunSteps(t, steps); var s' := Next(t, s, Delete(name));
      && (CreateSpec(s.rows, name, uid, data, now).1 == if name in s.rows then AlreadyExists else Ok)
      && (name in s.rows ==> CreateSpec(s.rows, name, uid, data, now).0 == s.rows)
      && (DeleteSpec(s.rows, name).1 == if name in s.rows then Ok else NotFound)
      && name !in s'.rows && CreateSpec(s'.rows, name, uid, data, now).1.Ok?
      && Next(t, s', Get(c, name)) == s' && DeleteSpec(s'.rows, name).1.NotFound?
      && UpdateSpec(t, s'.rows, name, NoEtag, data, valid, now).1.NotFound?
      && (c in s'.views && s'.views[c].name == name ==> EtagUpdate(t, s', c, data, valid, now).1.NotFound?)
  {
  }
}
