/** Filtering a message by a field mask: fields, map entries, list elements and JSON inside bytes. */
module FieldMaskFilter {
  import opened Prelude
  import opened FieldMask

  /** A JSON document; arrays are atoms, since a plain key finds nothing in them. */
  datatype Doc = Null | Atom(text: string) | Object(members: map<string, Doc>)

  /** The populated fields of a message. */
  datatype Msg = Msg(fields: map<string, Value>)

  datatype Value =
    | Scalar(text: string)
    | Scalars(items: seq<string>)
    | Bytes(raw: string)
    | Json(doc: Doc)
    | Message(msg: Msg)
    | Messages(msgs: seq<Msg>)
    | Dict(entries: map<string, Entry>)

  /** A map entry's value; bytes in a map are not decoded. */
  datatype Entry = Plain(text: string) | Nested(msg: Msg)

  // ---------- JSON ----------

  /** gjson's lookup of a path of plain keys; what is not there reads as null. */
  function JsonAt(d: Doc, path: Path): Doc {
    if path == [] then d
    else if d.Object? && path[0] in d.members then JsonAt(d.members[path[0]], path[1..])
    else Null
  }

  /** Every leaf of the mask is looked up from the top of the document; the rest is the mask's own shape. */
  function FilterJson(fm: Mask, d: Doc, path: Path): Doc
    decreases fm
  {
    Object(map k | k in fm.children ::
      if fm.children[k] == EMPTY then JsonAt(d, path + [k]) else FilterJson(fm.children[k], d, path + [k]))
  }

  // ---------- messages ----------

  function Filter(fm: Mask, m: Msg): Msg
    decreases m, 0
  {
    if fm == EMPTY then m
    else Msg(map k | k in m.fields && k in fm.children :: FilterValue(fm.children[k], m.fields[k]))
  }

  function FilterValue(fm: Mask, v: Value): Value
    decreases v, 1
  {
    if fm == EMPTY then v
    else
      match v
      case Dict(entries) => Dict(map k | k in entries && k in fm.children ::
        if entries[k].Nested? then Nested(Filter(fm.children[k], entries[k].msg)) else entries[k])
      case Messages(msgs) => Messages(seq(|msgs|, i requires 0 <= i < |msgs| => Filter(fm, msgs[i])))
      case Message(m) => Message(Filter(fm, m))
      case Json(d) => Json(FilterJson(fm, d, []))
      case Scalar(_) => v
      case Scalars(_) => v
      case Bytes(_) => v
  }

  /** A mask that goes on below a repeated scalar makes the filter ask a scalar for its message, which panics. */
  predicate Panics(fm: Mask, m: Msg)
    decreases m, 0
  {
    fm != EMPTY && exists k :: k in m.fields && k in fm.children && ValuePanics(fm.children[k], m.fields[k])
  }

  predicate ValuePanics(fm: Mask, v: Value)
    decreases v, 1
  {
    && fm != EMPTY
    && match v
       case Scalars(items) => items != []
       case Messages(msgs) => exists i :: 0 <= i < |msgs| && Panics(fm, msgs[i])
       case Message(m) => Panics(fm, m)
       case Dict(entries) =>
         exists k :: k in entries && k in fm.children && entries[k].Nested? && Panics(fm.children[k], entries[k].msg)
       case _ => false
  }

  // ---------- leaves ----------

  datatype Step = Field(name: string) | At(index: nat)

  type Address = seq<Step>

  /** The mask sees names only: every element of a list has the list's own name. */
  function Names(a: Address): Path {
    if a == [] then [] else (if a[0].Field? then [a[0].name] else []) + Names(a[1..])
  }

  /** The atom at an address in a document. */
  function DocLeaf(d: Doc, a: Address): Option<Value> {
    if a == [] then (if d.Atom? then Some(Json(d)) else None)
    else if d.Object? && a[0].Field? && a[0].name in d.members then DocLeaf(d.members[a[0].name], a[1..])
    else None
  }

  function MsgLeaf(m: Msg, a: Address): Option<Value>
    decreases |a|, 0
  {
    if a != [] && a[0].Field? && a[0].name in m.fields then LeafAt(m.fields[a[0].name], a[1..]) else None
  }

  /** The scalar, repeated scalar, byte string or JSON atom at an address. */
  function LeafAt(v: Value, a: Address): Option<Value>
    decreases |a|, 1
  {
    match v
    case Json(d) => DocLeaf(d, a)
    case Message(m) => MsgLeaf(m, a)
    case Messages(msgs) =>
      if a != [] && a[0].At? && a[0].index < |msgs| then MsgLeaf(msgs[a[0].index], a[1..]) else None
    case Dict(entries) =>
      if a != [] && a[0].Field? && a[0].name in entries then
        match entries[a[0].name]
        case Nested(m) => MsgLeaf(m, a[1..])
        case Plain(text) => if |a| == 1 then Some(Scalar(text)) else None
      else None
    case _ => if a == [] then Some(v) else None
  }

  /** Some path of the mask is a prefix of the names (an empty mask keeps everything). */
  predicate Covers(fm: Mask, names: Path) {
    fm == EMPTY || (names != [] && names[0] in fm.children && Covers(fm.children[names[0]], names[1..]))
  }

  /** As Covers, or the names end while the mask goes on. */
  predicate Follows(fm: Mask, names: Path) {
    fm == EMPTY || names == [] || (names[0] in fm.children && Follows(fm.children[names[0]], names[1..]))
  }

  lemma {:induction false} CoversIff(fm: Mask, names: Path)
    ensures fm != EMPTY ==> (Covers(fm, names) <==> exists n: nat :: n <= |names| && Leaf(fm, names[..n]))
  {
    if fm != EMPTY && names != [] && names[0] in fm.children {
      var child := fm.children[names[0]];
      CoversIff(child, names[1..]);
      forall n: nat | 0 < n <= |names|
        ensures Leaf(fm, names[..n]) <==> if n == 1 then child == EMPTY else Leaf(child, names[1..][..n - 1])
      {
        assert names[..n][1..] == names[1..][..n - 1];
      }
      if child == EMPTY {
        assert Leaf(fm, names[..1]);
      } else if Covers(child, names[1..]) {
        var n: nat :| n <= |names| - 1 && Leaf(child, names[1..][..n]);
        assert n > 0;
        assert Leaf(fm, names[..n + 1]);
      }
      if n: nat :| n <= |names| && Leaf(fm, names[..n]) {
        if n > 1 { assert Leaf(child, names[1..][..n - 1]); }
      }
    }
  }

  // ---------- JSON leaves ----------

  lemma {:induction false} JsonAtFurther(d: Doc, p: Path, q: Path)
    ensures JsonAt(d, p + q) == JsonAt(JsonAt(d, p), q)
  {
    if p == [] {
      assert p + q == q;
    } else {
      assert (p + q)[0] == p[0] && (p + q)[1..] == p[1..] + q;
      if d.Object? && p[0] in d.members { JsonAtFurther(d.members[p[0]], p[1..], q); }
    }
  }

  lemma {:induction false} JsonLeafKept(fm: Mask, d: Doc, path: Path, a: Address)
    requires fm != EMPTY
    ensures DocLeaf(FilterJson(fm, d, path), a) ==
      if Covers(fm, Names(a)) then DocLeaf(JsonAt(d, path), a) else None
    decreases |a|
  {
    if a != [] && a[0].Field? && a[0].name in fm.children {
      var k := a[0].name;
      var child := fm.children[k];
      NamesOfField(a);
      JsonAtFurther(d, path, [k]);
      JsonAtOne(JsonAt(d, path), k);
      if child != EMPTY { JsonLeafKept(child, d, path + [k], a[1..]); }
    } else if a != [] && a[0].At? {
      assert DocLeaf(JsonAt(d, path), a) == None;
    } else if a != [] {
      NamesOfField(a);
    }
  }

  lemma NamesOfField(a: Address)
    requires a != [] && a[0].Field?
    ensures Names(a) != [] && Names(a)[0] == a[0].name && Names(a)[1..] == Names(a[1..])
  {
  }

  lemma JsonAtOne(d: Doc, k: string)
    ensures JsonAt(d, [k]) == if d.Object? && k in d.members then d.members[k] else Null
  {
    assert [k][1..] == [];
  }

  lemma {:induction false} JsonAtFiltered(fm: Mask, d: Doc, path: Path, fs: Path)
    requires Leaf(fm, fs)
    ensures JsonAt(FilterJson(fm, d, path), fs) == JsonAt(d, path + fs)
    decreases |fs|
  {
    var k := fs[0];
    if |fs| == 1 {
      assert fs[1..] == [] && path + fs == path + [k];
    } else {
      JsonAtFiltered(fm.children[k], d, path + [k], fs[1..]);
      assert path + fs == path + [k] + fs[1..];
    }
  }

  lemma {:induction false} FilterJsonSees(fm: Mask, d: Doc, p: Path, e: Doc, q: Path)
    requires forall fs: Path :: Leaf(fm, fs) ==> JsonAt(d, p + fs) == JsonAt(e, q + fs)
    ensures FilterJson(fm, d, p) == FilterJson(fm, e, q)
  {
    var a, b := FilterJson(fm, d, p), FilterJson(fm, e, q);
    forall k | k in fm.children ensures a.members[k] == b.members[k] {
      if fm.children[k] == EMPTY {
        assert Leaf(fm, [k]);
      } else {
        forall fs: Path | Leaf(fm.children[k], fs) ensures JsonAt(d, p + [k] + fs) == JsonAt(e, q + [k] + fs) {
          assert ([k] + fs)[1..] == fs && Leaf(fm, [k] + fs);
          assert p + [k] + fs == p + ([k] + fs) && q + [k] + fs == q + ([k] + fs);
        }
        FilterJsonSees(fm.children[k], d, p + [k], e, q + [k]);
      }
    }
    assert a.members == b.members;
  }

  lemma FilterJsonTwice(fm: Mask, d: Doc)
    ensures FilterJson(fm, FilterJson(fm, d, []), []) == FilterJson(fm, d, [])
  {
    var once := FilterJson(fm, d, []);
    forall fs: Path | Leaf(fm, fs) ensures JsonAt(once, [] + fs) == JsonAt(d, [] + fs) {
      JsonAtFiltered(fm, d, [], fs);
      assert [] + fs == fs;
    }
    FilterJsonSees(fm, once, [], d, []);
  }

  // ---------- the theorems ----------

  /** A second pass with the same mask changes nothing. */
  lemma {:induction false} FilterTwice(fm: Mask, m: Msg)
    ensures Filter(fm, Filter(fm, m)) == Filter(fm, m)
    decreases m, 0
  {
    if fm != EMPTY {
      var once := Filter(fm, m);
      forall k | k in once.fields ensures Filter(fm, once).fields[k] == once.fields[k] {
        FilterValueTwice(fm.children[k], m.fields[k]);
      }
      assert Filter(fm, once).fields == once.fields;
    }
  }

  lemma {:induction false} FilterValueTwice(fm: Mask, v: Value)
    ensures FilterValue(fm, FilterValue(fm, v)) == FilterValue(fm, v)
    decreases v, 1
  {
    if fm != EMPTY {
      var once := FilterValue(fm, v);
      match v
      case Json(d) => FilterJsonTwice(fm, d);
      case Message(m) => FilterTwice(fm, m);
      case Messages(msgs) =>
        forall i | 0 <= i < |msgs| ensures FilterValue(fm, once).msgs[i] == once.msgs[i] { FilterTwice(fm, msgs[i]); }
        assert FilterValue(fm, once).msgs == once.msgs;
      case Dict(entries) =>
        forall k | k in once.entries ensures FilterValue(fm, once).entries[k] == once.entries[k] {
          if entries[k].Nested? { FilterTwice(fm.children[k], entries[k].msg); }
        }
        assert FilterValue(fm, once).entries == once.entries;
      case _ =>
    }
  }

  /** A leaf stays where it is kept: covered, or followed and not inside JSON. */
  predicate Keeps(fm: Mask, a: Address, leaf: Option<Value>) {
    leaf.Some? && (Covers(fm, Names(a)) || (Follows(fm, Names(a)) && !leaf.value.Json?))
  }

  /**
   The filtered message has exactly the kept leaves, each with its value at its address: those with a
   mask path as prefix of their name, and those that a mask path runs past.
   */
  lemma {:induction false} LeafKeptIff(fm: Mask, m: Msg, a: Address)
    ensures MsgLeaf(Filter(fm, m), a) == if Keeps(fm, a, MsgLeaf(m, a)) then MsgLeaf(m, a) else None
    decreases |a|, 0
  {
    if fm != EMPTY && a != [] && a[0].Field? && a[0].name in m.fields {
      NamesOfField(a);
      if a[0].name in fm.children { ValueLeafKeptIff(fm.children[a[0].name], m.fields[a[0].name], a[1..]); }
    }
  }

  lemma {:induction false} ValueLeafKeptIff(fm: Mask, v: Value, a: Address)
    ensures LeafAt(FilterValue(fm, v), a) == if Keeps(fm, a, LeafAt(v, a)) then LeafAt(v, a) else None
    decreases |a|, 1
  {
    if fm != EMPTY {
      match v
      case Json(d) =>
        JsonLeafKept(fm, d, [], a);
        DocLeafIsJson(d, a);
      case Message(m) => LeafKeptIff(fm, m, a);
      case Messages(msgs) =>
        if a != [] && a[0].At? && a[0].index < |msgs| {
          LeafKeptIff(fm, msgs[a[0].index], a[1..]);
          assert Names(a) == Names(a[1..]);
        }
      case Dict(entries) =>
        if a != [] && a[0].Field? && a[0].name in entries { EntryLeafKeptIff(fm, entries, a); }
      case _ =>
    }
  }

  lemma {:induction false} EntryLeafKeptIff(fm: Mask, entries: map<string, Entry>, a: Address)
    requires fm != EMPTY && a != [] && a[0].Field? && a[0].name in entries
    ensures LeafAt(FilterValue(fm, Dict(entries)), a) ==
      if Keeps(fm, a, LeafAt(Dict(entries), a)) then LeafAt(Dict(entries), a) else None
    decreases |a|, 0
  {
    var k := a[0].name;
    NamesOfField(a);
    if k in fm.children {
      assert Covers(fm, Names(a)) <==> Covers(fm.children[k], Names(a[1..]));
      assert Follows(fm, Names(a)) <==> Follows(fm.children[k], Names(a[1..]));
      if entries[k].Nested? {
        LeafKeptIff(fm.children[k], entries[k].msg, a[1..]);
      } else if |a| == 1 {
        assert a[1..] == [] && Follows(fm.children[k], []);
      }
    }
  }

  lemma {:induction false} DocLeafIsJson(d: Doc, a: Address)
    ensures DocLeaf(d, a).Some? ==> DocLeaf(d, a).value.Json?
  {
    if d.Object? && a != [] && a[0].Field? && a[0].name in d.members { DocLeafIsJson(d.members[a[0].name], a[1..]); }
  }

  // ---------- the request and the panic ----------

  /** A name is covered exactly by the requested paths that no other requested path extends. */
  lemma CoveredByRequestIff(paths: seq<string>, names: Path)
    requires paths != []
    ensures Covers(BuildOn(EMPTY, paths), names) <==>
      exists i :: 0 <= i < |paths| && Maximal(paths, paths[i]) && Split(paths[i]) <= names
  {
    var fm := BuildOn(EMPTY, paths);
    BuildHas(EMPTY, paths, [Split(paths[0])[0]]);
    assert [Split(paths[0])[0]] <= Split(paths[0]);
    assert fm != EMPTY;
    CoversIff(fm, names);
    if n: nat :| n <= |names| && Leaf(fm, names[..n]) {
      LeafIsSplit(paths, names[..n]);
      var p :| p in paths && Split(p) == names[..n];
      MaximalIff(paths, p);
      var i :| 0 <= i < |paths| && paths[i] == p;
      assert Split(paths[i]) <= names;
    }
    forall i | 0 <= i < |paths| && Maximal(paths, paths[i]) && Split(paths[i]) <= names
      ensures exists n: nat :: n <= |names| && Leaf(fm, names[..n])
    {
      MaximalIff(paths, paths[i]);
      assert names[..|Split(paths[i])|] == Split(paths[i]);
    }
  }

  /** A mask path goes on where the names end. */
  predicate RunsPast(fm: Mask, names: Path) { Follows(fm, names) && !Covers(fm, names) }

  predicate IsRepeated(leaf: Option<Value>) { leaf.Some? && leaf.value.Scalars? && leaf.value.items != [] }

  /** A populated repeated scalar that a mask path runs past. */
  predicate Trips(fm: Mask, m: Msg, a: Address) { IsRepeated(MsgLeaf(m, a)) && RunsPast(fm, Names(a)) }

  lemma {:induction false} RunningPastPanics(fm: Mask, m: Msg, a: Address)
    requires Trips(fm, m, a)
    ensures Panics(fm, m)
    decreases |a|, 0
  {
    NamesOfField(a);
    RunningPastValuePanics(fm.children[a[0].name], m.fields[a[0].name], a[1..]);
  }

  lemma {:induction false} RunningPastValuePanics(fm: Mask, v: Value, a: Address)
    requires IsRepeated(LeafAt(v, a)) && RunsPast(fm, Names(a))
    ensures ValuePanics(fm, v)
    decreases |a|, 1
  {
    match v
    case Json(d) => DocLeafIsJson(d, a);
    case Message(m) => RunningPastPanics(fm, m, a);
    case Messages(msgs) =>
      assert Names(a) == Names(a[1..]);
      RunningPastPanics(fm, msgs[a[0].index], a[1..]);
    case Dict(entries) =>
      NamesOfField(a);
      if entries[a[0].name].Nested? { RunningPastPanics(fm.children[a[0].name], entries[a[0].name].msg, a[1..]); }
    case _ =>
  }

  lemma {:induction false} PanicRunsPast(fm: Mask, m: Msg) returns (a: Address)
    requires Panics(fm, m)
    ensures Trips(fm, m, a)
    decreases m, 0
  {
    var k :| k in m.fields && k in fm.children && ValuePanics(fm.children[k], m.fields[k]);
    var rest := ValuePanicRunsPast(fm.children[k], m.fields[k]);
    a := [Field(k)] + rest;
    assert a[1..] == rest;
    NamesOfField(a);
  }

  lemma {:induction false} ValuePanicRunsPast(fm: Mask, v: Value) returns (a: Address)
    requires ValuePanics(fm, v)
    ensures IsRepeated(LeafAt(v, a)) && RunsPast(fm, Names(a))
    decreases v, 1
  {
    match v
    case Scalars(_) => a := [];
    case Message(m) => a := PanicRunsPast(fm, m);
    case Messages(msgs) =>
      var i :| 0 <= i < |msgs| && Panics(fm, msgs[i]);
      var rest := PanicRunsPast(fm, msgs[i]);
      a := [At(i)] + rest;
      assert a[1..] == rest && Names(a) == Names(rest);
    case Dict(entries) =>
      var k :| k in entries && k in fm.children && entries[k].Nested? && Panics(fm.children[k], entries[k].msg);
      var rest := PanicRunsPast(fm.children[k], entries[k].msg);
      a := [Field(k)] + rest;
      assert a[1..] == rest;
      NamesOfField(a);
  }

  /** The filter panics exactly when a mask path runs past a repeated scalar that has elements. */
  lemma PanicsIff(fm: Mask, m: Msg)
    ensures Panics(fm, m) <==> exists a: Address :: Trips(fm, m, a)
  {
    if Panics(fm, m) {
      var a := PanicRunsPast(fm, m);
      assert Trips(fm, m, a);
    }
    forall a: Address | Trips(fm, m, a) ensures Panics(fm, m) {
      RunningPastPanics(fm, m, a);
    }
  }

  /** A message that was filtered without panic can be filtered again. */
  lemma FilteredIsSafe(fm: Mask, m: Msg)
    requires !Panics(fm, m)
    ensures !Panics(fm, Filter(fm, m))
  {
    if Panics(fm, Filter(fm, m)) {
      var a := PanicRunsPast(fm, Filter(fm, m));
      LeafKeptIff(fm, m, a);
      RunningPastPanics(fm, m, a);
    }
  }
}
