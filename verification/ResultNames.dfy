/** Names of Results and Records: what the watcher computes and what the server accepts. */
module ResultNames {
  import opened Prelude
  import opened Annotation

  // ---------- the server's side ----------

  predicate NameChar(c: char) { 'a' <= c <= 'z' || '0' <= c <= '9' || c == '_' || c == '-' }

  /** One component of a resource name: [a-z0-9_-]{1,63}. */
  predicate Segment(s: string) {
    1 <= |s| <= 63 && forall i :: 0 <= i < |s| ==> NameChar(s[i])
  }

  function FormatResult(parent: string, name: string): string { parent + "/results/" + name }
  function FormatRecord(result: string, name: string): string { result + "/records/" + name }

  /** The text before the first slash. */
  function FirstPart(s: string): (p: string)
    ensures p <= s
  {
    if s == [] || s[0] == '/' then [] else [s[0]] + FirstPart(s[1..])
  }

  /** result.ParseName: parent and name, if the text has the form parent/results/name. */
  function ParseResult(s: string): Option<(string, string)> {
    var parent := FirstPart(s);
    var rest := s[|parent|..];
    if "/results/" <= rest && Segment(parent) && Segment(rest[9..]) then Some((parent, rest[9..])) else None
  }

  /** record.ParseName: parent, result and name of parent/results/result/records/name. */
  function ParseRecord(s: string): Option<(string, string, string)> {
    var parent := FirstPart(s);
    var rest := s[|parent|..];
    if !("/results/" <= rest) then None
    else
      var result := FirstPart(rest[9..]);
      var tail := rest[9 + |result|..];
      if "/records/" <= tail && Segment(parent) && Segment(result) && Segment(tail[9..])
      then Some((parent, result, tail[9..])) else None
  }

  /** CreateResult accepts the request's parent and name. */
  predicate ServerAcceptsResult(parent: string, name: string) {
    var p := ParseResult(name);
    p.Some? && p.value.0 == parent
  }

  /** CreateRecord accepts the request's parent and name. */
  predicate ServerAcceptsRecord(parent: string, name: string) {
    var p := ParseRecord(name);
    p.Some? && parent == FormatResult(p.value.0, p.value.1)
  }

  // ---------- the watcher's side ----------

  const EVENT_ID := "triggers.tekton.dev/triggers-eventid"

  datatype Owner = Owner(kind: string, uid: string)

  datatype Meta = Meta(namespace: string, uid: string, labels: map<string, string>,
                       annotations: map<string, string>, owners: seq<Owner>)

  function Lower(c: char): char {
    if 'A' <= c <= 'Z' then (c as int - 'A' as int + 'a' as int) as char else c
  }

  /** strings.EqualFold(kind, "pipelinerun"), for ASCII kinds. */
  predicate IsPipelineRunKind(kind: string) {
    |kind| == |"pipelinerun"| && forall i :: 0 <= i < |kind| ==> Lower(kind[i]) == "pipelinerun"[i]
  }

  /** The uid of the first owner that is a PipelineRun, or the empty string. */
  function PipelineOwner(owners: seq<Owner>): string {
    if owners == [] then ""
    else if IsPipelineRunKind(owners[0].kind) then owners[0].uid
    else PipelineOwner(owners[1..])
  }

  predicate TopLevel(o: Meta) { o.owners == [] }

  function ResultName(o: Meta): string {
    if RESULT in o.annotations then o.annotations[RESULT]
    else
      var part := if EVENT_ID in o.labels then o.labels[EVENT_ID] else PipelineOwner(o.owners);
      FormatResult(o.namespace, if part == "" then o.uid else part)
  }

  function RecordName(parent: string, o: Meta): string {
    if TopLevel(o) && RECORD in o.annotations then o.annotations[RECORD] else FormatRecord(parent, o.uid)
  }

  function ParentName(o: Meta): string {
    if RESULT in o.annotations then FirstPart(o.annotations[RESULT]) else o.namespace
  }

  method FindPipelineOwner(owners: seq<Owner>) returns (uid: string)
    ensures uid == PipelineOwner(owners)
  {
    for i := 0 to |owners|
      invariant PipelineOwner(owners) == PipelineOwner(owners[i..])
    {
      if IsPipelineRunKind(owners[i].kind) { return owners[i].uid; }
      assert owners[i..][1..] == owners[i + 1..];
    }
    return "";
  }

  // ---------- parsing undoes formatting ----------

  predicate NoSlash(s: string) { forall i :: 0 <= i < |s| ==> s[i] != '/' }

  lemma SegmentHasNoSlash(s: string)
    requires Segment(s)
    ensures NoSlash(s)
  {
    forall i | 0 <= i < |s| ensures s[i] != '/' { assert NameChar(s[i]); }
  }

  lemma {:induction false} FirstPartOf(p: string, rest: string)
    requires NoSlash(p) && rest != [] && rest[0] == '/'
    ensures FirstPart(p + rest) == p
  {
    if p == [] {
      assert p + rest == rest;
    } else {
      assert (p + rest)[1..] == p[1..] + rest;
      FirstPartOf(p[1..], rest);
    }
  }

  /** Cutting at the first slash undoes gluing at it. */
  lemma CutAtSlash(p: string, mark: string, rest: string)
    requires NoSlash(p) && mark != [] && mark[0] == '/'
    ensures var s := p + (mark + rest);
      FirstPart(s) == p && s[|p|..] == mark + rest && mark <= s[|p|..] && s[|p|..][|mark|..] == rest
  {
    FirstPartOf(p, mark + rest);
    assert (p + (mark + rest))[|p|..] == mark + rest;
    assert (mark + rest)[|mark|..] == rest;
  }

  /** Formatting a name the server accepts and parsing it give the parts back. */
  lemma ParseFormatResult(parent: string, name: string)
    requires NoSlash(parent)
    ensures ParseResult(FormatResult(parent, name))
         == if Segment(parent) && Segment(name) then Some((parent, name)) else None
  {
    assert FormatResult(parent, name) == parent + ("/results/" + name);
    CutAtSlash(parent, "/results/", name);
  }

  lemma ParseFormatRecord(parent: string, result: string, name: string)
    requires NoSlash(parent) && NoSlash(result)
    ensures ParseRecord(FormatRecord(FormatResult(parent, result), name))
         == if Segment(parent) && Segment(result) && Segment(name) then Some((parent, result, name)) else None
  {
    var inner := result + ("/records/" + name);
    assert FormatRecord(FormatResult(parent, result), name) == parent + ("/results/" + inner);
    CutAtSlash(parent, "/results/", inner);
    CutAtSlash(result, "/records/", name);
    assert ("/results/" + inner)[9 + |result|..] == inner[|result|..];
  }

  /** What parses as a Result name is the formatting of its parts. */
  lemma ParsedResult(s: string)
    requires ParseResult(s).Some?
    ensures var (parent, name) := ParseResult(s).value;
      s == FormatResult(parent, name) && Segment(parent) && Segment(name)
  {
    var parent := FirstPart(s);
    var rest := s[|parent|..];
    assert s == parent + rest;
    assert rest == "/results/" + rest[9..];
  }

  // ---------- the names the watcher computes ----------

  /** What a successful reconcile writes on the run. */
  function Annotated(o: Meta, result: string, record: string): Meta {
    o.(annotations := o.annotations[RESULT := result][RECORD := record])
  }

  /** The names do not change once the reconcile has written them on the run. */
  lemma NamesAreStable(o: Meta)
    ensures var result := ResultName(o); var record := RecordName(result, o);
            var o' := Annotated(o, result, record);
      ResultName(o') == result && RecordName(result, o') == record
  {
    assert RESULT[|RESULT| - 1] == 't' && RECORD[|RECORD| - 1] == 'd';
  }

  /** The first owner that is a PipelineRun. */
  predicate FirstPipelineOwner(owners: seq<Owner>, i: int) {
    0 <= i < |owners| && IsPipelineRunKind(owners[i].kind) && forall j :: 0 <= j < i ==> !IsPipelineRunKind(owners[j].kind)
  }

  lemma {:induction false} PipelineOwnerIs(owners: seq<Owner>)
    ensures forall i :: FirstPipelineOwner(owners, i) ==> PipelineOwner(owners) == owners[i].uid
    ensures (forall j :: 0 <= j < |owners| ==> !IsPipelineRunKind(owners[j].kind)) ==> PipelineOwner(owners) == ""
  {
    if owners != [] {
      PipelineOwnerIs(owners[1..]);
      forall i | FirstPipelineOwner(owners, i) ensures PipelineOwner(owners) == owners[i].uid {
        if i > 0 {
          assert !IsPipelineRunKind(owners[0].kind);
          assert FirstPipelineOwner(owners[1..], i - 1);
        }
      }
    }
  }

  /**
   What an unannotated run's Result is named after: the trigger event, whatever owns the run; else the PipelineRun
   that owns it; and the run itself where there is neither or what there is is empty.
   */
  ghost predicate NamedAfter(o: Meta, part: string) {
    if EVENT_ID in o.labels then
      (o.labels[EVENT_ID] != "" && part == o.labels[EVENT_ID]) || (o.labels[EVENT_ID] == "" && part == o.uid)
    else
      || (exists i :: FirstPipelineOwner(o.owners, i) && o.owners[i].uid != "" && part == o.owners[i].uid)
      || (part == o.uid && forall i :: FirstPipelineOwner(o.owners, i) ==> o.owners[i].uid == "")
  }

  lemma ResultNamedAfterIff(o: Meta, part: string)
    ensures RESULT in o.annotations ==> ResultName(o) == o.annotations[RESULT]
    ensures RESULT !in o.annotations ==> (ResultName(o) == FormatResult(o.namespace, part) <==> NamedAfter(o, part))
    ensures !TopLevel(o) || RECORD !in o.annotations ==> RecordName(ResultName(o), o) == FormatRecord(ResultName(o), o.uid)
  {
    PipelineOwnerIs(o.owners);
    if exists i :: FirstPipelineOwner(o.owners, i) {
      var i :| FirstPipelineOwner(o.owners, i);
      assert PipelineOwner(o.owners) == o.owners[i].uid;
    } else {
      NoFirstOwner(o.owners, 0);
    }
    if RESULT !in o.annotations {
      var head := o.namespace + "/results/";
      var own := ResultName(o)[|head|..];
      assert ResultName(o) == head + own;
      assert (head + part)[|head|..] == part;
    }
  }

  lemma {:induction false} NoFirstOwner(owners: seq<Owner>, n: nat)
    requires n <= |owners| && (forall j :: 0 <= j < n ==> !IsPipelineRunKind(owners[j].kind))
    requires forall i :: !FirstPipelineOwner(owners, i)
    ensures forall j :: 0 <= j < |owners| ==> !IsPipelineRunKind(owners[j].kind)
    decreases |owners| - n
  {
    if n < |owners| {
      assert !FirstPipelineOwner(owners, n);
      NoFirstOwner(owners, n + 1);
    }
  }

  /** A child owned by a PipelineRun lands in the PipelineRun's Result. */
  lemma ChildSharesResult(child: Meta, run: Meta)
    requires RESULT !in child.annotations && EVENT_ID !in child.labels
    requires RESULT !in run.annotations && EVENT_ID !in run.labels && PipelineOwner(run.owners) == ""
    requires child.namespace == run.namespace && run.uid != ""
    requires child.owners != [] && child.owners[0] == Owner("PipelineRun", run.uid)
    ensures ResultName(child) == ResultName(run)
    ensures RecordName(ResultName(child), child) == FormatRecord(ResultName(run), child.uid)
  {
    assert IsPipelineRunKind("PipelineRun");
  }

  /** Every Result the watcher asks the server to create passes the server's check, if its name is valid at all. */
  lemma ResultRequestAccepted(o: Meta)
    requires NoSlash(o.namespace)
    ensures ServerAcceptsResult(ParentName(o), ResultName(o)) <==> ParseResult(ResultName(o)).Some?
  {
    if ParseResult(ResultName(o)).Some? {
      ParsedResult(ResultName(o));
      var (parent, name) := ParseResult(ResultName(o)).value;
      if RESULT !in o.annotations {
        var part := if EVENT_ID in o.labels then o.labels[EVENT_ID] else PipelineOwner(o.owners);
        ParseFormatResult(o.namespace, if part == "" then o.uid else part);
      }
    }
  }

  /** What parses as a Record name is the formatting of its parts. */
  lemma ParsedRecord(s: string)
    requires ParseRecord(s).Some?
    ensures var (parent, result, name) := ParseRecord(s).value;
      s == FormatRecord(FormatResult(parent, result), name) && Segment(parent) && Segment(result) && Segment(name)
  {
    var parent := FirstPart(s);
    var rest := s[|parent|..];
    var inner := rest[9..];
    var result := FirstPart(inner);
    assert rest[9 + |result|..] == inner[|result|..];
    var name := inner[|result|..][9..];
    CutFirst(s, "/results/");
    CutFirst(inner, "/records/");
    Glued(parent, "/results/", result, "/records/", name);
  }

  lemma CutFirst(s: string, mark: string)
    requires mark <= s[|FirstPart(s)|..]
    ensures s == FirstPart(s) + (mark + s[|FirstPart(s)|..][|mark|..])
  {
    var rest := s[|FirstPart(s)|..];
    assert s == FirstPart(s) + rest;
    assert rest == mark + rest[|mark|..];
  }

  lemma Glued(a: string, m: string, b: string, n: string, c: string)
    ensures a + (m + (b + (n + c))) == (a + m + b) + n + c
  {
  }

  /** The name is that of a Record under the given Result. */
  ghost predicate RecordUnder(result: string, name: string) {
    exists n :: Segment(n) && name == FormatRecord(result, n)
  }

  /** The server accepts a Result under a parent exactly when its name is that of a Result of that parent. */
  lemma ResultAcceptedIff(parent: string, name: string)
    ensures ServerAcceptsResult(parent, name) <==> Segment(parent) && exists n :: Segment(n) && name == FormatResult(parent, n)
  {
    if ServerAcceptsResult(parent, name) { ParsedResult(name); }
    if Segment(parent) && exists n :: Segment(n) && name == FormatResult(parent, n) {
      var n :| Segment(n) && name == FormatResult(parent, n);
      SegmentHasNoSlash(parent);
      ParseFormatResult(parent, n);
    }
  }

  /** A DNS label, as namespaces are: lower-case letters, digits and dashes. Uids are such labels too. */
  predicate DnsLabel(s: string) {
    1 <= |s| <= 63 && forall i :: 0 <= i < |s| ==> ('a' <= s[i] <= 'z' || '0' <= s[i] <= '9' || s[i] == '-')
  }

  /**
   The Result of a run without annotation, trigger event or PipelineRun, and its Record, are accepted wherever the
   namespace and the uid are DNS labels; a name part of 64 or more characters, or of none, never is.
   */
  lemma PlainNamesAreAccepted(o: Meta)
    requires RESULT !in o.annotations && RECORD !in o.annotations && EVENT_ID !in o.labels && o.owners == []
    ensures DnsLabel(o.namespace) && DnsLabel(o.uid) ==>
      ServerAcceptsResult(ParentName(o), ResultName(o)) && ServerAcceptsRecord(ResultName(o), RecordName(ResultName(o), o))
    ensures ServerAcceptsResult(ParentName(o), ResultName(o)) ==> 1 <= |o.namespace| <= 63 && 1 <= |o.uid| <= 63
  {
    if DnsLabel(o.namespace) && DnsLabel(o.uid) {
      LabelIsSegment(o.namespace);
      LabelIsSegment(o.uid);
      SegmentHasNoSlash(o.namespace);
      SegmentHasNoSlash(o.uid);
      ParseFormatResult(o.namespace, o.uid);
      ParseFormatRecord(o.namespace, o.uid, o.uid);
    }
    if ServerAcceptsResult(ParentName(o), ResultName(o)) {
      ResultAcceptedIff(o.namespace, ResultName(o));
      var n :| Segment(n) && ResultName(o) == FormatResult(o.namespace, n);
      ResultNamedAfterIff(o, n);
    }
  }

  lemma LabelIsSegment(s: string)
    requires DnsLabel(s)
    ensures Segment(s)
  {
  }

  lemma RecordAcceptedIff(result: string, name: string)
    ensures ServerAcceptsRecord(result, name) <==> ParseResult(result).Some? && RecordUnder(result, name)
  {
    if ServerAcceptsRecord(result, name) {
      ParsedRecord(name);
      var (parent, r, n) := ParseRecord(name).value;
      SegmentHasNoSlash(parent);
      ParseFormatResult(parent, r);
    }
    if ParseResult(result).Some? && RecordUnder(result, name) {
      var n :| Segment(n) && name == FormatRecord(result, n);
      ParsedResult(result);
      var (parent, r) := ParseResult(result).value;
      SegmentHasNoSlash(parent);
      SegmentHasNoSlash(r);
      ParseFormatRecord(parent, r, n);
    }
  }

  /**
   The Record a run asks for, whatever it is annotated with, is accepted exactly when its Result's name is
   valid and its own is that of a Record under that Result: an annotation can name another Result's Record.
   */
  lemma RecordRequestAccepted(o: Meta)
    ensures ServerAcceptsRecord(ResultName(o), RecordName(ResultName(o), o)) <==>
      ParseResult(ResultName(o)).Some? && RecordUnder(ResultName(o), RecordName(ResultName(o), o))
  {
    RecordAcceptedIff(ResultName(o), RecordName(ResultName(o), o));
  }

  /** A name the watcher derives, before and after it is written on the run, is accepted exactly when the uid is valid. */
  lemma DerivedRecordAcceptedIff(o: Meta)
    requires !(TopLevel(o) && RECORD in o.annotations)
    ensures var result := ResultName(o); var o' := Annotated(o, result, RecordName(result, o));
      && (ServerAcceptsRecord(result, RecordName(result, o)) <==> ParseResult(result).Some? && Segment(o.uid))
      && (ServerAcceptsRecord(ResultName(o'), RecordName(ResultName(o'), o'))
          <==> ParseResult(result).Some? && Segment(o.uid))
  {
    var result := ResultName(o);
    NamesAreStable(o);
    if ParseResult(result).Some? {
      ParsedResult(result);
      var (parent, name) := ParseResult(result).value;
      SegmentHasNoSlash(parent);
      SegmentHasNoSlash(name);
      ParseFormatRecord(parent, name, o.uid);
    }
    RecordAcceptedIff(result, RecordName(result, o));
  }

  /** A record annotation that names a Record of another Result is refused. */
  lemma ForeignRecordIsRefused(o: Meta, other: string, n: string)
    requires TopLevel(o) && RECORD in o.annotations && o.annotations[RECORD] == FormatRecord(other, n)
    requires ParseResult(other).Some? && Segment(n) && other != ResultName(o)
    ensures !ServerAcceptsRecord(ResultName(o), RecordName(ResultName(o), o))
  {
    ParsedResult(other);
    var (parent, r) := ParseResult(other).value;
    SegmentHasNoSlash(parent);
    SegmentHasNoSlash(r);
    ParseFormatRecord(parent, r, n);
  }
}
