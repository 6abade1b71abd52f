/** What a filter means on one row: CEL's evaluation and PostgreSQL's three-valued evaluation. */
module CelSemantics {
  import opened Prelude
  import opened CelAst
  import opened SqlAst

  datatype Json =
    | JNull
    | JBool(b: bool)
    | JNum(n: real)
    | JStr(s: string)
    | JArr(items: seq<Json>)
    | JObj(fields: map<string, Json>)

  datatype Summary = Summary(record: string, kind: string, status: int,
                             start: Option<int>, end: Option<int>, annotations: map<string, string>)

  /** The columns of the results and records tables that filters can mention. */
  datatype Row = Row(parent: string, id: string, name: string, resultName: string, kind: string,
                     created: int, updated: int, data: Json,
                     annotations: map<string, string>, summary: Summary)

  /**
   The two readings of a filter: CEL's own, in which a string and a timestamp differ, and the one the
   translator documents, in which dynamic text beside a timestamp is read as a timestamp.
   */
  datatype Lang = Cel | Coercing

  /**
   The reading meant, and what CEL and PostgreSQL share and this model does not open up: the text jsonb
   gives a value that is not a string, timestamp parsing, the calendar (in UTC) and regular expressions.
   */
  datatype World = World(lang: Lang, jsonText: Json -> string, parseTime: string -> Option<int>,
                         calendar: (DateField, int) -> int, regex: (string, string) -> bool)

  // ---------- text ----------

  predicate IsPrefix(p: string, s: string) { p <= s }

  predicate IsSuffix(p: string, s: string) { |p| <= |s| && s[|s| - |p|..] == p }

  predicate Occurs(p: string, s: string) {
    IsPrefix(p, s) || (s != [] && Occurs(p, s[1..]))
  }

  /** POSITION: one more than the offset of the first occurrence, or 0. */
  function PositionOf(p: string, s: string): nat {
    if IsPrefix(p, s) then 1
    else if s == [] then 0
    else
      var rest := PositionOf(p, s[1..]);
      if rest == 0 then 0 else rest + 1
  }

  /** LIKE: % is any text, _ any one character, and a backslash quotes the character after it. */
  predicate Like(s: string, pattern: string)
    decreases |pattern|, |s|
  {
    if pattern == [] then s == []
    else if pattern[0] == '%' then
      Like(s, pattern[1..]) || (s != [] && Like(s[1..], pattern))
    else if pattern[0] == '_' then s != [] && Like(s[1..], pattern[1..])
    else if pattern[0] == '\\' && |pattern| > 1 then
      s != [] && s[0] == pattern[1] && Like(s[1..], pattern[2..])
    else s != [] && s[0] == pattern[0] && Like(s[1..], pattern[1..])
  }

  /** Text that means itself inside a LIKE pattern. */
  predicate Plain(s: string) {
    forall i :: 0 <= i < |s| ==> s[i] != '%' && s[i] != '_' && s[i] != '\\'
  }

  // ---------- CEL ----------

  datatype Val =
    | VErr
    | VNull
    | VBool(b: bool)
    | VInt(i: int)
    | VNum(n: real)
    | VStr(s: string)
    | VTime(t: int)
    | VJson(j: Json)
    | VMap(m: map<string, string>)
    | VSummary(summary: Summary)

  function FromJson(j: Json): Val {
    match j
    case JNull => VNull
    case JBool(b) => VBool(b)
    case JNum(n) => VNum(n)
    case JStr(s) => VStr(s)
    case _ => VJson(j)
  }

  /** An unset timestamp field reads as the default message, which is the epoch. */
  function TimeVal(t: Option<int>): Val {
    if t.Some? then VTime(t.value) else VTime(0)
  }

  function ConstVal(c: Const): Val {
    match c
    case BoolConst(b) => VBool(b)
    case IntConst(i) => VInt(i)
    case StringConst(s) => VStr(s)
    case TimestampConst(t) => VTime(t)
    case NullConst => VNull
    case DoubleConst(r) => VNum(r)
    case _ => VErr
  }

  function Variable(name: string, row: Row): Val {
    match name
    case "parent" => VStr(row.parent)
    case "uid" => VStr(row.id)
    case "name" => VStr(row.name)
    case "result_name" => VStr(row.resultName)
    case "data_type" => VStr(row.kind)
    case "create_time" => VTime(row.created)
    case "update_time" => VTime(row.updated)
    case "data" => FromJson(row.data)
    case "annotations" => VMap(row.annotations)
    case "summary" => VSummary(row.summary)
    case _ => VErr
  }

  function SummaryField(s: Summary, field: string): Val {
    match field
    case "record" => VStr(s.record)
    case "type" => VStr(s.kind)
    case "status" => VInt(s.status)
    case "start_time" => TimeVal(s.start)
    case "end_time" => TimeVal(s.end)
    case "annotations" => VMap(s.annotations)
    case _ => VErr
  }

  /** A missing field or key is an error. */
  function SelectVal(v: Val, field: string): Val {
    match v
    case VJson(JObj(fields)) => if field in fields then FromJson(fields[field]) else VErr
    case VSummary(s) => SummaryField(s, field)
    case VMap(m) => if field in m then VStr(m[field]) else VErr
    case _ => VErr
  }

  function IndexVal(v: Val, key: Val): Val {
    match (v, key)
    case (VJson(JObj(fields)), VStr(k)) => if k in fields then FromJson(fields[k]) else VErr
    case (VJson(JArr(items)), VInt(i)) => if 0 <= i < |items| then FromJson(items[i]) else VErr
    case (VMap(m), VStr(k)) => if k in m then VStr(m[k]) else VErr
    case _ => VErr
  }

  /** Logical operators absorb an error on either side when the other side decides. */
  function AndVal(a: Val, b: Val): Val {
    if a == VBool(false) || b == VBool(false) then VBool(false)
    else if a == VBool(true) && b == VBool(true) then VBool(true)
    else VErr
  }

  function OrVal(a: Val, b: Val): Val {
    if a == VBool(true) || b == VBool(true) then VBool(true)
    else if a == VBool(false) && b == VBool(false) then VBool(false)
    else VErr
  }

  /** Equality is defined across types: values of different types differ, numbers compare as numbers. */
  predicate SameVal(a: Val, b: Val) {
    match (a, b)
    case (VInt(i), VNum(n)) => i as real == n
    case (VNum(n), VInt(i)) => i as real == n
    case _ => a == b
  }

  function EqVal(a: Val, b: Val): Val {
    if a.VErr? || b.VErr? then VErr else VBool(SameVal(a, b))
  }

  function Negate(v: Val): Val {
    if v.VBool? then VBool(!v.b) else VErr
  }

  function Compare(op: BinOp, a: int, b: int): bool {
    match op
    case Lt => a < b
    case Le => a <= b
    case Gt => a > b
    case Ge => a >= b
    case _ => false
  }

  /** Orderings of integers and of timestamps. */
  function OrderVal(op: BinOp, a: Val, b: Val): Val {
    match (a, b)
    case (VInt(x), VInt(y)) => VBool(Compare(op, x, y))
    case (VTime(x), VTime(y)) => VBool(Compare(op, x, y))
    case _ => VErr
  }

  /** Integer division as both languages do it: toward zero. */
  function Quotient(a: int, b: int): int
    requires b != 0
  {
    if a >= 0 then a / b else -(-a / b)
  }

  /** An integer operation; there is none on a zero divisor. */
  function Arith(op: BinOp, a: int, b: int): Option<int> {
    match op
    case Add => Some(a + b)
    case Sub => Some(a - b)
    case Mul => Some(a * b)
    case Div => if b == 0 then None else Some(Quotient(a, b))
    case Mod => if b == 0 then None else Some(a - b * Quotient(a, b))
    case _ => None
  }

  function ArithVal(op: BinOp, a: Val, b: Val): Val {
    match (a, b)
    case (VInt(x), VInt(y)) => (match Arith(op, x, y) case Some(i) => VInt(i) case None => VErr)
    case (VStr(x), VStr(y)) => if op.Add? then VStr(x + y) else VErr
    case _ => VErr
  }

  function TextVal(w: World, fn: TextFn, target: Val, arg: Val): Val {
    if !target.VStr? || !arg.VStr? then VErr
    else
      match fn
      case Contains => VBool(Occurs(arg.s, target.s))
      case StartsWith => VBool(IsPrefix(arg.s, target.s))
      case EndsWith => VBool(IsSuffix(arg.s, target.s))
      case Matches => VBool(w.regex(target.s, arg.s))
  }

  /** The conversion to a timestamp: text is parsed. */
  function AsTime(w: World, v: Val): Val {
    match v
    case VTime(_) => v
    case VStr(s) => (match w.parseTime(s) case Some(t) => VTime(t) case None => VErr)
    case _ => VErr
  }

  function TimeField(w: World, get: TimeGet, v: Val): Val {
    if !v.VTime? then VErr
    else
      match get
      case GetDate => VInt(w.calendar(Day, v.t))
      case GetDayOfMonth => VInt(w.calendar(Day, v.t) - 1)
      case GetDayOfWeek => VInt(w.calendar(Dow, v.t))
      case GetDayOfYear => VInt(w.calendar(Doy, v.t) - 1)
      case GetFullYear => VInt(w.calendar(Year, v.t))
  }

  predicate DynBesideTime(operand: Expr, other: Expr) { operand.ty.TDyn? && other.ty.TTimestamp? }

  /** The implicit coercion of the second reading. */
  predicate Coerces(w: World, operand: Expr, other: Expr) { w.lang.Coercing? && DynBesideTime(operand, other) }

  function Eval(w: World, row: Row, e: Expr): Val
    decreases e, 0
  {
    match e
    case Const(_, c) => ConstVal(c)
    case Ident(_, name, reference) => if reference.Some? then ConstVal(reference.value) else Variable(name, row)
    case Select(_, operand, field, testOnly) =>
      if testOnly then VErr else SelectVal(Eval(w, row, operand), field)
    case Not(_, arg) => Negate(Eval(w, row, arg))
    case Binary(_, op, left, right) =>
      if op.In? then
        if right.ListLit? then InVal(Eval(w, row, left), EvalAll(w, row, e, right.elems)) else VErr
      else
        var a := if Coerces(w, left, right) then AsTime(w, Eval(w, row, left)) else Eval(w, row, left);
        var b := if Coerces(w, right, left) then AsTime(w, Eval(w, row, right)) else Eval(w, row, right);
        BinaryVal(op, a, b)
    case Index(_, base, key) => IndexVal(Eval(w, row, base), Eval(w, row, key))
    case TextCall(_, fn, target, arg) => TextVal(w, fn, Eval(w, row, target), Eval(w, row, arg))
    case TimeCall(_, get, target, zone) =>
      if zone.Some? then VErr
      else TimeField(w, get, if w.lang.Coercing? && target.ty.TDyn? then AsTime(w, Eval(w, row, target)) else Eval(w, row, target))
    case ToTimestamp(_, arg) => AsTime(w, Eval(w, row, arg))
    case _ => VErr
  }

  function BinaryVal(op: BinOp, a: Val, b: Val): Val {
    match op
    case And => AndVal(a, b)
    case Or => OrVal(a, b)
    case Eq => EqVal(a, b)
    case Ne => Negate(EqVal(a, b))
    case Lt | Le | Gt | Ge => OrderVal(op, a, b)
    case _ => ArithVal(op, a, b)
  }

  function EvalAll(w: World, row: Row, bound: Expr, es: seq<Expr>): seq<Val>
    requires forall i :: 0 <= i < |es| ==> es[i] < bound
    decreases bound, 0, |es|
  {
    if es == [] then [] else [Eval(w, row, es[0])] + EvalAll(w, row, bound, es[1..])
  }

  lemma {:induction false} EvalAllIs(w: World, row: Row, bound: Expr, es: seq<Expr>)
    requires forall i :: 0 <= i < |es| ==> es[i] < bound
    ensures |EvalAll(w, row, bound, es)| == |es|
    ensures forall i :: 0 <= i < |es| ==> EvalAll(w, row, bound, es)[i] == Eval(w, row, es[i])
    decreases |es|
  {
    if es != [] { EvalAllIs(w, row, bound, es[1..]); }
  }

  /** Membership in a list; an error in the element or in the list is an error. */
  function InVal(v: Val, vs: seq<Val>): Val {
    if v.VErr? || VErr in vs then VErr else VBool(exists i :: 0 <= i < |vs| && SameVal(v, vs[i]))
  }

  // ---------- SQL ----------

  /** `Bad` stands for a statement PostgreSQL rejects or aborts. */
  datatype SqlVal = Bad | Null | B(b: bool) | I(i: int) | T(s: string) | Ts(t: int) | J(j: Json)

  function MapJson(m: map<string, string>): Json {
    JObj(map k | k in m :: JStr(m[k]))
  }

  function TimeCol(t: Option<int>): SqlVal {
    if t.Some? then Ts(t.value) else Null
  }

  function ColumnVal(name: string, row: Row): SqlVal {
    match name
    case "parent" => T(row.parent)
    case "id" => T(row.id)
    case "name" => T(row.name)
    case "result_name" => T(row.resultName)
    case "type" => T(row.kind)
    case "created_time" => Ts(row.created)
    case "updated_time" => Ts(row.updated)
    case "data" => J(row.data)
    case "annotations" => J(MapJson(row.annotations))
    case "recordsummary_record" => T(row.summary.record)
    case "recordsummary_type" => T(row.summary.kind)
    case "recordsummary_status" => I(row.summary.status)
    case "recordsummary_start_time" => TimeCol(row.summary.start)
    case "recordsummary_end_time" => TimeCol(row.summary.end)
    case "recordsummary_annotations" => J(MapJson(row.summary.annotations))
    case _ => Bad
  }

  function LitVal(l: SqlLit): SqlVal {
    match l
    case LNull => Null
    case LBool(b) => B(b)
    case LInt(i) => I(i)
    case LText(s) => T(s)
    case LTimestamp(t) => Ts(t)
    case LObject(k, v) => J(JObj(map[k := JStr(v)]))
    case _ => Bad
  }

  /** jsonb containment of a flat object. */
  predicate JsonContains(a: Json, b: Json) {
    a.JObj? && b.JObj? && forall k :: k in b.fields ==> k in a.fields && a.fields[k] == b.fields[k]
  }

  /** -> : the member or element, or NULL. A negative position counts from the end. */
  function Arrow(a: SqlVal, key: SqlVal): SqlVal {
    match (a, key)
    case (J(JObj(fields)), T(k)) => if k in fields then J(fields[k]) else Null
    case (J(JArr(items)), I(i)) =>
      if 0 <= i < |items| then J(items[i])
      else if -|items| <= i < 0 then J(items[|items| + i])
      else Null
    case (J(_), T(_)) => Null
    case (J(_), I(_)) => Null
    case (Null, T(_)) => Null
    case (Null, I(_)) => Null
    case _ => Bad
  }

  /** ->> : the same as text; the JSON null is NULL. */
  function ArrowText(w: World, a: SqlVal, key: SqlVal): SqlVal {
    match Arrow(a, key)
    case J(JNull) => Null
    case J(JStr(s)) => T(s)
    case J(j) => T(w.jsonText(j))
    case other => other
  }

  function SqlAnd(a: SqlVal, b: SqlVal): SqlVal {
    if !(a.B? || a.Null?) || !(b.B? || b.Null?) then Bad
    else if a == B(false) || b == B(false) then B(false)
    else if a.Null? || b.Null? then Null
    else B(true)
  }

  function SqlOr(a: SqlVal, b: SqlVal): SqlVal {
    if !(a.B? || a.Null?) || !(b.B? || b.Null?) then Bad
    else if a == B(true) || b == B(true) then B(true)
    else if a.Null? || b.Null? then Null
    else B(false)
  }

  function SqlNotVal(a: SqlVal): SqlVal {
    match a
    case B(b) => B(!b)
    case Null => Null
    case _ => Bad
  }

  predicate SameKind(a: SqlVal, b: SqlVal) {
    (a.B? && b.B?) || (a.I? && b.I?) || (a.T? && b.T?) || (a.Ts? && b.Ts?)
  }

  function SqlEq(a: SqlVal, b: SqlVal): SqlVal {
    if a.Bad? || b.Bad? then Bad
    else if a.Null? || b.Null? then Null
    else if SameKind(a, b) then B(a == b)
    else Bad
  }

  function SqlCompare(op: SqlOp, a: int, b: int): bool {
    match op
    case LtOp => a < b
    case LeOp => a <= b
    case GtOp => a > b
    case GeOp => a >= b
    case _ => false
  }

  function SqlOrder(op: SqlOp, a: SqlVal, b: SqlVal): SqlVal {
    match (a, b)
    case (I(x), I(y)) => B(SqlCompare(op, x, y))
    case (Ts(x), Ts(y)) => B(SqlCompare(op, x, y))
    case (Null, I(_)) => Null
    case (Null, Ts(_)) => Null
    case (I(_), Null) => Null
    case (Ts(_), Null) => Null
    case (Null, Null) => Null
    case _ => Bad
  }

  function SqlArith(op: SqlOp, a: SqlVal, b: SqlVal): SqlVal {
    match (a, b)
    case (I(x), I(y)) =>
      (match op
       case AddOp => I(x + y)
       case SubOp => I(x - y)
       case MulOp => I(x * y)
       case DivOp => if y == 0 then Bad else I(Quotient(x, y))
       case ModOp => if y == 0 then Bad else I(x - y * Quotient(x, y))
       case _ => Bad)
    case (Null, I(_)) => Null
    case (I(_), Null) => Null
    case (Null, Null) => Null
    case _ => Bad
  }

  function SqlText(w: World, op: SqlOp, a: SqlVal, b: SqlVal): SqlVal {
    match (a, b)
    case (T(x), T(y)) =>
      (match op
       case LikeOp => B(Like(x, y))
       case RegexOp => B(w.regex(x, y))
       case ConcatOp => T(x + y)
       case _ => Bad)
    case (Null, T(_)) => Null
    case (T(_), Null) => Null
    case (Null, Null) => Null
    case _ => Bad
  }

  function SqlPosition(needle: SqlVal, hay: SqlVal): SqlVal {
    match (needle, hay)
    case (T(p), T(s)) => I(PositionOf(p, s))
    case (Null, T(_)) => Null
    case (T(_), Null) => Null
    case (Null, Null) => Null
    case _ => Bad
  }

  function SqlBin(w: World, op: SqlOp, a: SqlVal, b: SqlVal): SqlVal {
    match op
    case AndOp => SqlAnd(a, b)
    case OrOp => SqlOr(a, b)
    case EqOp => SqlEq(a, b)
    case NeOp => SqlNotVal(SqlEq(a, b))
    case LtOp | LeOp | GtOp | GeOp => SqlOrder(op, a, b)
    case AddOp | SubOp | MulOp | DivOp | ModOp => SqlArith(op, a, b)
    case LikeOp | RegexOp | ConcatOp => SqlText(w, op, a, b)
    case ArrowOp => Arrow(a, b)
    case ArrowTextOp => ArrowText(w, a, b)
    case ContainsOp => if a.J? && b.J? then B(JsonContains(a.j, b.j)) else Bad
  }

  function SqlCast(w: World, v: SqlVal, to: SqlType): SqlVal {
    match (to, v)
    case (_, Null) => Null
    case (TimestampTz, Ts(_)) => v
    case (TimestampTz, T(s)) => (match w.parseTime(s) case Some(t) => Ts(t) case None => Bad)
    case (Jsonb, J(_)) => v
    case _ => Bad
  }

  function EvalSql(w: World, row: Row, q: Sql): SqlVal
    decreases q, 0
  {
    match q
    case Col(name) => ColumnVal(name, row)
    case Lit(l) => LitVal(l)
    case Bin(op, a, b) => SqlBin(w, op, EvalSql(w, row, a), EvalSql(w, row, b))
    case SNot(a) => SqlNotVal(EvalSql(w, row, a))
    case Cast(a, to) => SqlCast(w, EvalSql(w, row, a), to)
    case Position(needle, hay) => SqlPosition(EvalSql(w, row, needle), EvalSql(w, row, hay))
    case Extract(field, a) =>
      (match EvalSql(w, row, a) case Ts(t) => I(w.calendar(field, t)) case Null => Null case _ => Bad)
    case ConcatCall(args) => SqlConcat(EvalSqlAll(w, row, q, args))
    case InList(a, elems) => SqlIn(EvalSql(w, row, a), EvalSqlAll(w, row, q, elems))
  }

  function EvalSqlAll(w: World, row: Row, bound: Sql, qs: seq<Sql>): seq<SqlVal>
    requires forall i :: 0 <= i < |qs| ==> qs[i] < bound
    decreases bound, 0, |qs|
  {
    if qs == [] then [] else [EvalSql(w, row, qs[0])] + EvalSqlAll(w, row, bound, qs[1..])
  }

  lemma {:induction false} EvalSqlAllIs(w: World, row: Row, bound: Sql, qs: seq<Sql>)
    requires forall i :: 0 <= i < |qs| ==> qs[i] < bound
    ensures |EvalSqlAll(w, row, bound, qs)| == |qs|
    ensures forall i :: 0 <= i < |qs| ==> EvalSqlAll(w, row, bound, qs)[i] == EvalSql(w, row, qs[i])
    decreases |qs|
  {
    if qs != [] { EvalSqlAllIs(w, row, bound, qs[1..]); }
  }

  /** CONCAT joins its text arguments and skips NULLs. */
  function SqlConcat(vs: seq<SqlVal>): SqlVal {
    if vs == [] then T("")
    else
      match (vs[0], SqlConcat(vs[1..]))
      case (T(s), T(rest)) => T(s + rest)
      case (Null, T(rest)) => T(rest)
      case _ => Bad
  }

  /** x IN (...): a disjunction of equalities. */
  function SqlIn(v: SqlVal, vs: seq<SqlVal>): SqlVal {
    if vs == [] then B(false) else SqlOr(SqlEq(v, vs[0]), SqlIn(v, vs[1..]))
  }
}
