/** The meaning of a filter is preserved: where CEL yields a Boolean, the SQL filter yields the same one. */
module Cel2SqlPreservation {
  import opened Prelude
  import opened CelAst
  import opened SqlAst
  import opened Cel2SqlEmit
  import opened Cel2SqlMeaning
  import opened CelSemantics

  // ---------- the fragment ----------

  predicate TextTy(ty: Ty) { ty.TString? || ty.TDyn? }

  predicate ConstOf(ty: Ty, c: Const) {
    match c
    case BoolConst(_) => ty.TBool?
    case IntConst(_) => ty.TInt?
    case StringConst(_) => ty.TString?
    case TimestampConst(_) => ty.TTimestamp?
    case _ => false
  }

  predicate ColumnIdent(e: Expr)
    requires e.Ident? && e.reference.None?
  {
    || (e.ty.TString? && e.name in {"parent", "uid", "name", "result_name", "data_type"})
    || (e.ty.TTimestamp? && e.name in {"create_time", "update_time"})
  }

  predicate IsData(e: Expr) { e == Ident(TAny, "data", None) }
  predicate IsAnnotations(e: Expr) { e == Ident(TStringMap, "annotations", None) }
  predicate IsSummary(e: Expr) { e == Ident(TSummary, "summary", None) }

  /** A path into the record's data: every step but the first yields a dyn. */
  predicate DataChain(e: Expr) {
    match e
    case Ident(_, _, _) => IsData(e)
    case Select(ty, operand, _, testOnly) => ty.TDyn? && !testOnly && DataChain(operand)
    case Index(ty, base, key) =>
      && ty.TDyn? && DataChain(base)
      && key.Const? && (key.c.StringConst? || (key.c.IntConst? && key.c.i >= 0))
    case _ => false
  }

  predicate SummaryColumn(e: Expr)
    requires e.Select?
  {
    && IsSummary(e.operand)
    && (match e.field
        case "record" => e.ty.TString?
        case "type" => e.ty.TString?
        case "status" => e.ty.TInt?
        case "start_time" => e.ty.TTimestamp?
        case "end_time" => e.ty.TTimestamp?
        case _ => false)
  }

  /** The maps whose entries are compared with @>. */
  predicate ContainmentBase(e: Expr) {
    IsData(e) || IsAnnotations(e) || e == Select(TStringMap, Ident(TSummary, "summary", None), "annotations", false)
  }

  predicate Equatable(a: Ty, b: Ty) {
    || (TextTy(a) && TextTy(b))
    || (a.TInt? && b.TInt?)
    || (a.TBool? && b.TBool?)
    || ((a.TTimestamp? || a.TDyn?) && (b.TTimestamp? || b.TDyn?))
  }

  predicate Orderable(a: Ty, b: Ty) {
    || (a.TInt? && b.TInt?)
    || (a.TTimestamp? && (b.TTimestamp? || b.TDyn?))
    || (a.TDyn? && b.TTimestamp?)
  }

  /** Expressions of the types and forms whose meaning the two languages share. */
  predicate Supported(e: Expr)
    decreases e, 0
  {
    match e
    case Const(ty, c) => ConstOf(ty, c)
    case Ident(ty, _, reference) => if reference.Some? then ConstOf(ty, reference.value) else ColumnIdent(e)
    case Select(ty, operand, _, testOnly) =>
      !testOnly && ((ty.TDyn? && operand.ty.TDyn? && DataChain(operand)) || SummaryColumn(e))
    case Not(ty, arg) => ty.TBool? && arg.ty.TBool? && Supported(arg)
    case Binary(ty, op, left, right) =>
      if IsConcat(e) then ty.TString? && SupportedSum(e, e)
      else if IsJsonContains(left, op, right) then ty.TBool? && SupportedContainment(left, right)
      else if IsJsonContains(right, op, left) then ty.TBool? && SupportedContainment(right, left)
      else if op.In? then
        && ty.TBool? && Supported(left) && (TextTy(left.ty) || left.ty.TInt?)
        && right.ListLit? && right.ty.TList?
        && forall i :: 0 <= i < |right.elems| ==>
             && Supported(right.elems[i])
             && (if left.ty.TInt? then right.elems[i].ty.TInt? else TextTy(right.elems[i].ty))
      else
        && Supported(left) && Supported(right)
        && (match op
            case And | Or => ty.TBool? && left.ty.TBool? && right.ty.TBool?
            case Eq | Ne => ty.TBool? && Equatable(left.ty, right.ty)
            case Lt | Le | Gt | Ge => ty.TBool? && Orderable(left.ty, right.ty)
            case Add | Sub | Mul | Div | Mod => ty.TInt? && left.ty.TInt? && right.ty.TInt?
            case _ => false)
    case Index(ty, base, key) =>
      && IsStringConst(key)
      && ((IsAnnotations(base) && ty.TString?)
          || (IsData(base) && ty.TDyn?)
          || (base.Select? && base.operand.ty.TDyn? && DataChain(base) && ty.TDyn?))
    case TextCall(ty, _, target, arg) =>
      ty.TBool? && Supported(target) && TextTy(target.ty) && Supported(arg) && TextTy(arg.ty)
    case TimeCall(ty, _, target, zone) =>
      ty.TInt? && zone.None? && Supported(target) && (target.ty.TTimestamp? || target.ty.TDyn?)
    case ToTimestamp(ty, arg) =>
      ty.TTimestamp? && Supported(arg) && (arg.ty.TDyn? || (arg.ty.TString? && !IsCall(arg)))
    case _ => false
  }

  predicate SupportedContainment(indexed: Expr, literal: Expr) {
    && indexed.Index? && ContainmentBase(indexed.base) && IsStringConst(indexed.key)
    && TextTy(indexed.ty) && literal.ty.TString?
  }

  predicate SupportedSum(bound: Expr, e: Expr)
    requires e == bound || e < bound
    requires e == bound ==> e.Binary? && e.op.Add?
    decreases bound, 0, e
  {
    if e.Binary? && e.op.Add? then
      && SupportedSum(bound, e.left) && SupportedSum(bound, e.right)
      && !e.left.ty.TTimestamp? && !e.right.ty.TTimestamp?
    else !IsCall(e) && Supported(e) && TextTy(e.ty)
  }

  // ---------- the rows ----------

  /** The text ->> gives a dynamic value; none for an absent value and for null. */
  function DynText(w: World, v: Val): Option<string> {
    match v
    case VStr(s) => Some(s)
    case VBool(b) => Some(w.jsonText(JBool(b)))
    case VNum(n) => Some(w.jsonText(JNum(n)))
    case VJson(j) => Some(w.jsonText(j))
    case _ => None
  }

  /**
   Text is compared where CEL compares values: two strings always fare alike, null never does, and
   otherwise the texts must be the same exactly when the values are.
   */
  predicate TextsFit(w: World, a: Val, b: Val) {
    || a.VErr? || b.VErr?
    || (a.VStr? && b.VStr?)
    || (!a.VNull? && !b.VNull? && (DynText(w, a) == DynText(w, b) <==> SameVal(a, b)))
  }

  /** Text that a cast to timestamp accepts, or nothing to cast. */
  predicate CastFits(w: World, v: Val) {
    DynText(w, v).Some? ==> w.parseTime(DynText(w, v).value).Some?
  }

  /** Dynamic data is never equal to a timestamp in CEL; its text must not name that instant. */
  predicate InstantsDiffer(w: World, v: Val, time: Val) {
    !v.VErr? && time.VTime? ==> DynText(w, v).Some? && w.parseTime(DynText(w, v).value) != Some(time.t)
  }

  predicate EqualityFits(w: World, row: Row, left: Expr, right: Expr) {
    var a, b := Eval(w, row, left), Eval(w, row, right);
    if DynBesideTime(left, right) then w.lang.Cel? ==> InstantsDiffer(w, a, b)
    else if DynBesideTime(right, left) then w.lang.Cel? ==> InstantsDiffer(w, b, a)
    else if TextTy(left.ty) then TextsFit(w, a, b)
    else true
  }

  predicate OperandFitsRow(w: World, row: Row, operand: Expr, other: Expr) {
    DynBesideTime(operand, other) ==> CastFits(w, Eval(w, row, operand))
  }

  /** PostgreSQL aborts on a zero divisor. */
  predicate DivisorFits(v: Val) { v.VInt? && v.i != 0 }

  /** A summary time that is read is set: CEL takes an unset one for the epoch, SQL for NULL. */
  predicate TimeIsSet(row: Row, e: Expr)
    requires e.Select?
  {
    && (e.ty.TTimestamp? && e.field == "start_time" ==> row.summary.start.Some?)
    && (e.ty.TTimestamp? && e.field == "end_time" ==> row.summary.end.Some?)
  }

  /**
   What a row must be like for a given filter: values compared for equality have texts that fare like
   them, dynamic values used as timestamps parse, summary times are set, divisors are not zero, and LIKE
   arguments hold no wildcard.
   */
  predicate RowFits(w: World, row: Row, e: Expr)
    decreases e, 0
  {
    match e
    case Select(_, _, _, _) => TimeIsSet(row, e)
    case Not(_, arg) => RowFits(w, row, arg)
    case Binary(_, op, left, right) =>
      if IsConcat(e) || IsJsonContains(left, op, right) || IsJsonContains(right, op, left) then true
      else if op.In? && right.ListLit? then
        && RowFits(w, row, left)
        && forall i :: 0 <= i < |right.elems| ==>
             RowFits(w, row, right.elems[i]) && TextsFitIfText(w, row, left, right.elems[i])
      else
        && RowFits(w, row, left) && OperandFitsRow(w, row, left, right)
        && RowFits(w, row, right) && OperandFitsRow(w, row, right, left)
        && (op.Eq? || op.Ne? ==> EqualityFits(w, row, left, right))
        && (op.Div? || op.Mod? ==> DivisorFits(Eval(w, row, right)))
    case TextCall(_, fn, target, arg) =>
      && RowFits(w, row, target) && RowFits(w, row, arg)
      && (fn.StartsWith? || fn.EndsWith? ==> var v := Eval(w, row, arg); v.VStr? ==> Plain(v.s))
    case TimeCall(_, _, target, _) =>
      RowFits(w, row, target) && (target.ty.TDyn? ==> CastFits(w, Eval(w, row, target)))
    case ToTimestamp(_, arg) => RowFits(w, row, arg) && CastFits(w, Eval(w, row, arg))
    case _ => true
  }

  predicate TextsFitIfText(w: World, row: Row, left: Expr, elem: Expr) {
    TextTy(left.ty) ==> TextsFit(w, Eval(w, row, left), Eval(w, row, elem))
  }

  // ---------- the correspondence of values ----------

  /** An error may become NULL or any value of the right type; anything else is kept. */
  predicate Rel(w: World, ty: Ty, v: Val, q: SqlVal) {
    match ty
    case TBool => (q.Null? || q.B?) && (v.VErr? || (v.VBool? && q == B(v.b)))
    case TInt => (q.Null? || q.I?) && (v.VErr? || (v.VInt? && q == I(v.i)))
    case TString => (q.Null? || q.T?) && (v.VErr? || (v.VStr? && q == T(v.s)))
    case TTimestamp => (q.Null? || q.Ts?) && (v.VErr? || (v.VTime? && q == Ts(v.t)))
    case TDyn =>
      if DynText(w, v).Some? then q == T(DynText(w, v).value) else q.Null? && (v.VErr? || v.VNull?)
    case _ => false
  }

  // ---------- text functions ----------

  lemma {:induction false} PositionFindsOccurrence(p: string, s: string)
    ensures PositionOf(p, s) != 0 <==> Occurs(p, s)
  {
    if !IsPrefix(p, s) && s != [] {
      PositionFindsOccurrence(p, s[1..]);
    }
  }

  lemma {:induction false} LikePlain(s: string, p: string)
    requires Plain(p)
    ensures Like(s, p) <==> s == p
  {
    if p != [] && s != [] {
      LikePlain(s[1..], p[1..]);
      assert s == [s[0]] + s[1..] && p == [p[0]] + p[1..];
    }
  }

  lemma {:induction false} LikePercent(s: string)
    ensures Like(s, "%")
  {
    if s != [] {
      LikePercent(s[1..]);
    }
    assert "%"[1..] == "";
  }

  /** A wildcard-free pattern followed by % is a prefix test. */
  lemma {:induction false} LikePrefix(s: string, p: string)
    requires Plain(p)
    ensures Like(s, p + "%") <==> IsPrefix(p, s)
  {
    if p == [] {
      assert p + "%" == "%";
      LikePercent(s);
    } else {
      assert (p + "%")[1..] == p[1..] + "%";
      if s != [] {
        LikePrefix(s[1..], p[1..]);
        assert IsPrefix(p, s) <==> p[0] == s[0] && IsPrefix(p[1..], s[1..]);
      }
    }
  }

  /** A wildcard-free pattern after % is a suffix test. */
  lemma {:induction false} LikeSuffix(s: string, p: string)
    requires Plain(p)
    ensures Like(s, "%" + p) <==> IsSuffix(p, s)
    decreases |s|
  {
    assert ("%" + p)[1..] == p;
    LikePlain(s, p);
    if s == [] {
      assert IsSuffix(p, s) <==> p == [];
    } else {
      LikeSuffix(s[1..], p);
      if |p| < |s| {
        assert s[1..][|s[1..]| - |p|..] == s[|s| - |p|..];
      }
    }
  }

  // ---------- paths into the data ----------

  /** A chain of lookups and its evaluation reach the same JSON value, or neither reaches one. */
  predicate Reached(v: Val, q: SqlVal) {
    (q.Null? && v.VErr?) || (q.J? && v == FromJson(q.j))
  }

  lemma LookupText(v: Val, q: SqlVal, k: string)
    requires Reached(v, q)
    ensures Reached(SelectVal(v, k), Arrow(q, T(k))) && IndexVal(v, VStr(k)) == SelectVal(v, k)
  {
  }

  lemma LookupSlot(v: Val, q: SqlVal, i: nat)
    requires Reached(v, q)
    ensures Reached(IndexVal(v, VInt(i)), Arrow(q, I(i)))
  {
  }

  lemma LeafText(w: World, v: Val, q: SqlVal, key: SqlVal)
    requires Reached(v, Arrow(q, key))
    ensures Rel(w, TDyn, v, ArrowText(w, q, key))
  {
  }

  /** For every chain of any depth, the lookups written from root to leaf follow its evaluation. */
  lemma {:induction false} ChainReaches(w: World, row: Row, e: Expr)
    requires DataChain(e)
    ensures Reached(Eval(w, row, e), EvalSql(w, row, ChainMeaning(e)))
  {
    match e
    case Ident(_, _, _) =>
    case Select(_, operand, field, _) =>
      ChainReaches(w, row, operand);
      LookupText(Eval(w, row, operand), EvalSql(w, row, ChainMeaning(operand)), field);
    case Index(_, base, key) =>
      ChainReaches(w, row, base);
      if key.c.StringConst? {
        LookupText(Eval(w, row, base), EvalSql(w, row, ChainMeaning(base)), key.c.s);
      } else {
        LookupSlot(Eval(w, row, base), EvalSql(w, row, ChainMeaning(base)), key.c.i);
      }
  }

  function SummarySql(s: Summary, field: string): SqlVal {
    match field
    case "record" => T(s.record)
    case "type" => T(s.kind)
    case "status" => I(s.status)
    case "start_time" => TimeCol(s.start)
    case "end_time" => TimeCol(s.end)
    case "annotations" => J(MapJson(s.annotations))
    case _ => Bad
  }

  lemma SummaryColumnNames(row: Row, field: string)
    requires field in {"record", "type", "status", "start_time", "end_time", "annotations"}
    ensures ColumnVal("recordsummary_" + field, row) == SummarySql(row.summary, field)
  {
    assert "recordsummary_" + "record" == "recordsummary_record";
    assert "recordsummary_" + "type" == "recordsummary_type";
    assert "recordsummary_" + "status" == "recordsummary_status";
    assert "recordsummary_" + "start_time" == "recordsummary_start_time";
    assert "recordsummary_" + "end_time" == "recordsummary_end_time";
    assert "recordsummary_" + "annotations" == "recordsummary_annotations";
  }

  lemma SummaryRel(w: World, row: Row, e: Expr)
    requires e.Select? && SummaryColumn(e) && TimeIsSet(row, e)
    ensures e.field in {"record", "type", "status", "start_time", "end_time"}
    ensures Rel(w, e.ty, SummaryField(row.summary, e.field), SummarySql(row.summary, e.field))
    ensures e.ty.TString? ==> SummaryField(row.summary, e.field).VStr?
  {
  }

  lemma DynSelectKept(w: World, row: Row, e: Expr)
    requires e.Select? && !e.testOnly && DataChain(e.operand)
    ensures Rel(w, TDyn, Eval(w, row, e),
                EvalSql(w, row, Bin(ArrowTextOp, ChainMeaning(e.operand), Lit(LText(e.field)))))
  {
    ChainReaches(w, row, e.operand);
    var v, q := Eval(w, row, e.operand), EvalSql(w, row, ChainMeaning(e.operand));
    LookupText(v, q, e.field);
    LeafText(w, SelectVal(v, e.field), q, T(e.field));
    LookupMeaning(w, row, ChainMeaning(e.operand), e.field);
  }

  lemma {:induction false} LookupMeaning(w: World, row: Row, base: Sql, key: string)
    ensures EvalSql(w, row, Bin(ArrowTextOp, base, Lit(LText(key)))) == ArrowText(w, EvalSql(w, row, base), T(key))
  {
    assert EvalSql(w, row, Lit(LText(key))) == T(key);
  }

  lemma {:induction false} SelectKept(w: World, row: Row, e: Expr)
    requires e.Select? && Supported(e) && TimeIsSet(row, e)
    ensures Rel(w, e.ty, Eval(w, row, e), EvalSql(w, row, Meaning(e)))
    ensures e.ty.TString? ==> Eval(w, row, e).VStr?
  {
    if e.operand.ty.TDyn? {
      DynSelectKept(w, row, e);
    } else {
      SummaryRel(w, row, e);
      SummaryColumnNames(row, e.field);
      assert Meaning(e) == Col("recordsummary_" + e.field);
      assert Eval(w, row, e.operand) == VSummary(row.summary);
    }
  }

  lemma {:induction false} IndexKept(w: World, row: Row, e: Expr)
    requires e.Index? && Supported(e)
    ensures Rel(w, e.ty, Eval(w, row, e), EvalSql(w, row, Meaning(e)))
  {
    var k := e.key.c.s;
    assert Eval(w, row, e) == IndexVal(Eval(w, row, e.base), VStr(k));
    if IsAnnotations(e.base) {
      AnnotationKept(w, row, k);
    } else {
      DataIndexKept(w, row, e.base, k);
      assert Meaning(e) == Bin(ArrowTextOp, ChainMeaning(e.base), Lit(LText(k)));
    }
  }

  lemma AnnotationKept(w: World, row: Row, k: string)
    ensures Rel(w, TString, IndexVal(VMap(row.annotations), VStr(k)),
                EvalSql(w, row, Bin(ArrowTextOp, Col("annotations"), Lit(LText(k)))))
  {
    LookupMeaning(w, row, Col("annotations"), k);
    assert EvalSql(w, row, Col("annotations")) == J(MapJson(row.annotations));
  }

  lemma DataIndexKept(w: World, row: Row, base: Expr, k: string)
    requires DataChain(base)
    ensures Rel(w, TDyn, IndexVal(Eval(w, row, base), VStr(k)),
                EvalSql(w, row, Bin(ArrowTextOp, ChainMeaning(base), Lit(LText(k)))))
  {
    ChainReaches(w, row, base);
    var v, q := Eval(w, row, base), EvalSql(w, row, ChainMeaning(base));
    LookupText(v, q, k);
    LeafText(w, SelectVal(v, k), q, T(k));
    LookupMeaning(w, row, ChainMeaning(base), k);
  }

  // ---------- operators ----------

  lemma LogicKept(w: World, op: BinOp, a: Val, b: Val, p: SqlVal, q: SqlVal)
    requires op.And? || op.Or?
    requires Rel(w, TBool, a, p) && Rel(w, TBool, b, q)
    ensures Rel(w, TBool, BinaryVal(op, a, b), SqlBin(w, BinaryToken(op).op, p, q))
  {
  }

  lemma TextEqualityKept(w: World, op: BinOp, s: Ty, t: Ty, a: Val, b: Val, p: SqlVal, q: SqlVal)
    requires op.Eq? || op.Ne?
    requires TextTy(s) && TextTy(t) && Rel(w, s, a, p) && Rel(w, t, b, q) && TextsFit(w, a, b)
    ensures Rel(w, TBool, BinaryVal(op, a, b), SqlBin(w, BinaryToken(op).op, p, q))
  {
  }

  lemma EqualityKept(w: World, op: BinOp, t: Ty, a: Val, b: Val, p: SqlVal, q: SqlVal)
    requires op.Eq? || op.Ne?
    requires (t.TInt? || t.TBool? || t.TTimestamp?) && Rel(w, t, a, p) && Rel(w, t, b, q)
    ensures Rel(w, TBool, BinaryVal(op, a, b), SqlBin(w, BinaryToken(op).op, p, q))
  {
  }

  /** CEL's own reading of dynamic data beside a timestamp: unequal, and an error to order. */
  lemma DynBesideTimeKept(w: World, op: BinOp, a: Val, b: Val, p: SqlVal, q: SqlVal)
    requires op.Eq? || op.Ne? || op.Lt? || op.Le? || op.Gt? || op.Ge?
    requires Rel(w, TDyn, a, p) && Rel(w, TTimestamp, b, q) && CastFits(w, a)
    requires op.Eq? || op.Ne? ==> InstantsDiffer(w, a, b)
    ensures Rel(w, TBool, BinaryVal(op, a, b), SqlBin(w, BinaryToken(op).op, SqlCast(w, p, TimestampTz), q))
    ensures Rel(w, TBool, BinaryVal(op, b, a), SqlBin(w, BinaryToken(op).op, q, SqlCast(w, p, TimestampTz)))
  {
  }

  lemma OrderKept(w: World, op: BinOp, t: Ty, a: Val, b: Val, p: SqlVal, q: SqlVal)
    requires op.Lt? || op.Le? || op.Gt? || op.Ge?
    requires (t.TInt? || t.TTimestamp?) && Rel(w, t, a, p) && Rel(w, t, b, q)
    ensures Rel(w, TBool, BinaryVal(op, a, b), SqlBin(w, BinaryToken(op).op, p, q))
  {
  }

  lemma ArithKept(w: World, op: BinOp, a: Val, b: Val, p: SqlVal, q: SqlVal)
    requires op.Add? || op.Sub? || op.Mul? || op.Div? || op.Mod?
    requires Rel(w, TInt, a, p) && Rel(w, TInt, b, q) && (op.Div? || op.Mod? ==> DivisorFits(b))
    ensures Rel(w, TInt, BinaryVal(op, a, b), SqlBin(w, BinaryToken(op).op, p, q))
  {
  }

  lemma CastKept(w: World, ty: Ty, v: Val, q: SqlVal)
    requires ty.TDyn? || (ty.TString? && v.VStr?)
    requires Rel(w, ty, v, q) && CastFits(w, v)
    ensures Rel(w, TTimestamp, AsTime(w, v), SqlCast(w, q, TimestampTz))
  {
  }

  /** What the SQL text functions compute, from the values of their operands. */
  function SqlTextVal(w: World, fn: TextFn, target: SqlVal, arg: SqlVal): SqlVal {
    match fn
    case Contains => SqlNotVal(SqlEq(SqlPosition(arg, target), I(0)))
    case StartsWith => SqlText(w, LikeOp, target, SqlText(w, ConcatOp, arg, T("%")))
    case EndsWith => SqlText(w, LikeOp, target, SqlText(w, ConcatOp, T("%"), arg))
    case Matches => SqlText(w, RegexOp, target, arg)
  }

  lemma {:induction false} BinVal(w: World, row: Row, op: SqlOp, a: Sql, b: Sql)
    ensures EvalSql(w, row, Bin(op, a, b)) == SqlBin(w, op, EvalSql(w, row, a), EvalSql(w, row, b))
  {
  }

  lemma {:induction false} ContainsVal(w: World, row: Row, target: Sql, arg: Sql)
    ensures EvalSql(w, row, TextMeaning(Contains, target, arg))
         == SqlTextVal(w, Contains, EvalSql(w, row, target), EvalSql(w, row, arg))
  {
    BinVal(w, row, NeOp, Position(arg, target), Lit(LInt(0)));
    PositionVal(w, row, arg, target);
    ZeroVal(w, row);
  }

  lemma {:induction false} PositionVal(w: World, row: Row, needle: Sql, hay: Sql)
    ensures EvalSql(w, row, Position(needle, hay)) == SqlPosition(EvalSql(w, row, needle), EvalSql(w, row, hay))
  {
  }

  lemma ZeroVal(w: World, row: Row)
    ensures EvalSql(w, row, Lit(LInt(0))) == I(0)
  {
  }

  lemma {:induction false} PrefixVal(w: World, row: Row, target: Sql, arg: Sql, wild: string)
    ensures EvalSql(w, row, Bin(LikeOp, target, Bin(ConcatOp, arg, Lit(LText(wild)))))
         == SqlText(w, LikeOp, EvalSql(w, row, target), SqlText(w, ConcatOp, EvalSql(w, row, arg), T(wild)))
  {
    BinVal(w, row, ConcatOp, arg, Lit(LText(wild)));
    BinVal(w, row, LikeOp, target, Bin(ConcatOp, arg, Lit(LText(wild))));
  }

  lemma {:induction false} SuffixVal(w: World, row: Row, target: Sql, arg: Sql, wild: string)
    ensures EvalSql(w, row, Bin(LikeOp, target, Bin(ConcatOp, Lit(LText(wild)), arg)))
         == SqlText(w, LikeOp, EvalSql(w, row, target), SqlText(w, ConcatOp, T(wild), EvalSql(w, row, arg)))
  {
    BinVal(w, row, ConcatOp, Lit(LText(wild)), arg);
    BinVal(w, row, LikeOp, target, Bin(ConcatOp, Lit(LText(wild)), arg));
  }

  lemma {:induction false} TextMeaningVal(w: World, row: Row, fn: TextFn, target: Sql, arg: Sql)
    ensures EvalSql(w, row, TextMeaning(fn, target, arg))
         == SqlTextVal(w, fn, EvalSql(w, row, target), EvalSql(w, row, arg))
  {
    match fn
    case Contains => ContainsVal(w, row, target, arg);
    case StartsWith => PrefixVal(w, row, target, arg, "%");
    case EndsWith => SuffixVal(w, row, target, arg, "%");
    case Matches => BinVal(w, row, RegexOp, target, arg);
  }

  lemma TextKept(w: World, fn: TextFn, s: Ty, t: Ty, target: Val, arg: Val, p: SqlVal, q: SqlVal)
    requires TextTy(s) && TextTy(t) && Rel(w, s, target, p) && Rel(w, t, arg, q)
    requires (fn.StartsWith? || fn.EndsWith?) && arg.VStr? ==> Plain(arg.s)
    ensures Rel(w, TBool, TextVal(w, fn, target, arg), SqlTextVal(w, fn, p, q))
  {
    TextOrNull(w, s, target, p);
    TextOrNull(w, t, arg, q);
    SqlTextIs(w, fn, p, q);
    if target.VStr? && arg.VStr? { TextsKept(w, fn, target.s, arg.s); }
  }

  lemma TextOrNull(w: World, ty: Ty, v: Val, q: SqlVal)
    requires TextTy(ty) && Rel(w, ty, v, q)
    ensures (q.T? || q.Null?) && (v.VStr? ==> q == T(v.s))
  {
  }

  lemma SqlTextIs(w: World, fn: TextFn, p: SqlVal, q: SqlVal)
    requires (p.T? || p.Null?) && (q.T? || q.Null?)
    ensures SqlTextVal(w, fn, p, q).B? || SqlTextVal(w, fn, p, q).Null?
  {
  }

  lemma TextsKept(w: World, fn: TextFn, target: string, arg: string)
    requires fn.StartsWith? || fn.EndsWith? ==> Plain(arg)
    ensures TextVal(w, fn, VStr(target), VStr(arg)).VBool?
    ensures SqlTextVal(w, fn, T(target), T(arg)) == B(TextVal(w, fn, VStr(target), VStr(arg)).b)
  {
    match fn
    case Contains => PositionFindsOccurrence(arg, target);
    case StartsWith => LikePrefix(target, arg);
    case EndsWith => LikeSuffix(target, arg);
    case Matches =>
  }

  lemma MapEntry(m: map<string, string>, k: string, v: string)
    ensures EqVal(IndexVal(VMap(m), VStr(k)), VStr(v))
         == if k in MapJson(m).fields then VBool(MapJson(m).fields[k] == JStr(v)) else VErr
  {
  }

  lemma DataEntry(j: Json, k: string, v: string)
    ensures EqVal(IndexVal(FromJson(j), VStr(k)), VStr(v))
         == if j.JObj? && k in j.fields then VBool(j.fields[k] == JStr(v)) else VErr
  {
  }

  lemma {:induction false} MapColumns(w: World, row: Row)
    ensures EvalSql(w, row, Meaning(Ident(TAny, "data", None))) == J(row.data)
    ensures Eval(w, row, Ident(TAny, "data", None)) == FromJson(row.data)
    ensures EvalSql(w, row, Meaning(Ident(TStringMap, "annotations", None))) == J(MapJson(row.annotations))
    ensures Eval(w, row, Ident(TStringMap, "annotations", None)) == VMap(row.annotations)
  {
  }

  /** The map behind @>, as both languages see it. */
  lemma {:induction false} ContainmentBaseVal(w: World, row: Row, base: Expr, k: string, v: string)
    requires ContainmentBase(base)
    ensures EvalSql(w, row, Meaning(base)).J?
    ensures var stored := EvalSql(w, row, Meaning(base)).j;
      EqVal(IndexVal(Eval(w, row, base), VStr(k)), VStr(v))
        == if stored.JObj? && k in stored.fields then VBool(stored.fields[k] == JStr(v)) else VErr
  {
    MapColumns(w, row);
    DataEntry(row.data, k, v);
    MapEntry(row.annotations, k, v);
    MapEntry(row.summary.annotations, k, v);
    if base.Select? { SummaryMapVal(w, row, base); }
  }

  lemma {:induction false} SummaryMapVal(w: World, row: Row, base: Expr)
    requires base == Select(TStringMap, Ident(TSummary, "summary", None), "annotations", false)
    ensures EvalSql(w, row, Meaning(base)) == J(MapJson(row.summary.annotations))
    ensures Eval(w, row, base) == VMap(row.summary.annotations)
  {
    SummaryColumnNames(row, "annotations");
    assert Meaning(base) == Col("recordsummary_" + "annotations");
    assert Eval(w, row, base.operand) == VSummary(row.summary);
  }

  lemma {:induction false} ContainmentKept(w: World, row: Row, indexed: Expr, literal: Expr)
    requires SupportedContainment(indexed, literal) && literal.Const? && literal.c.StringConst?
    ensures Rel(w, TBool, EqVal(Eval(w, row, indexed), Eval(w, row, literal)),
                EvalSql(w, row, Bin(ContainsOp, Meaning(indexed.base), ObjectLiteral(indexed.key, literal))))
  {
    var k, v := indexed.key.c.s, literal.c.s;
    ContainmentBaseVal(w, row, indexed.base, k, v);
    assert Eval(w, row, indexed) == IndexVal(Eval(w, row, indexed.base), VStr(k));
    var wanted := map[k := JStr(v)];
    assert EvalSql(w, row, Lit(LObject(k, v))) == J(JObj(wanted));
    assert EvalSql(w, row, ObjectLiteral(indexed.key, literal)) == J(JObj(wanted));
    ContainsEntry(EvalSql(w, row, Meaning(indexed.base)).j, k, v);
  }

  lemma ContainsEntry(stored: Json, k: string, v: string)
    ensures JsonContains(stored, JObj(map[k := JStr(v)]))
       <==> stored.JObj? && k in stored.fields && stored.fields[k] == JStr(v)
  {
    assert k in map[k := JStr(v)];
  }

  // ---------- membership and concatenation ----------

  lemma {:induction false} MembershipKept(w: World, s: Ty, v: Val, p: SqlVal, vs: seq<Val>, qs: seq<SqlVal>, tys: seq<Ty>)
    requires |vs| == |qs| == |tys|
    requires (TextTy(s) || s.TInt?) && Rel(w, s, v, p)
    requires forall i :: 0 <= i < |vs| ==>
      (if s.TInt? then tys[i].TInt? else TextTy(tys[i])) && Rel(w, tys[i], vs[i], qs[i])
      && (TextTy(s) ==> TextsFit(w, v, vs[i]))
    ensures var q := SqlIn(p, qs);
      && (q.Null? || q.B?)
      && (!v.VErr? && VErr !in vs ==> q == B(exists i :: 0 <= i < |vs| && SameVal(v, vs[i])))
  {
    if vs != [] {
      MembershipKept(w, s, v, p, vs[1..], qs[1..], tys[1..]);
      if !v.VErr? && VErr !in vs {
        assert vs[0] != VErr && VErr !in vs[1..];
        assert SqlEq(p, qs[0]) == B(SameVal(v, vs[0]));
        AnyOf(v, vs);
      }
    }
  }

  lemma AnyOf(v: Val, vs: seq<Val>)
    requires vs != []
    ensures (exists i :: 0 <= i < |vs| && SameVal(v, vs[i]))
       <==> (SameVal(v, vs[0]) || exists i :: 0 <= i < |vs[1..]| && SameVal(v, vs[1..][i]))
  {
    if i :| 0 <= i < |vs| && SameVal(v, vs[i]) && i > 0 { assert vs[1..][i - 1] == vs[i]; }
    if i :| 0 <= i < |vs[1..]| && SameVal(v, vs[1..][i]) { assert vs[i + 1] == vs[1..][i]; }
  }

  lemma {:induction false} ConcatAppend(a: seq<SqlVal>, b: seq<SqlVal>)
    requires SqlConcat(a).T? && SqlConcat(b).T?
    ensures SqlConcat(a + b) == T(SqlConcat(a).s + SqlConcat(b).s)
  {
    if a == [] {
      assert a + b == b;
    } else {
      assert (a + b)[1..] == a[1..] + b;
      ConcatAppend(a[1..], b);
    }
  }

  function SqlVals(w: World, row: Row, qs: seq<Sql>): (vs: seq<SqlVal>)
    ensures |vs| == |qs| && forall i :: 0 <= i < |qs| ==> vs[i] == EvalSql(w, row, qs[i])
  {
    seq(|qs|, i requires 0 <= i < |qs| => EvalSql(w, row, qs[i]))
  }

  lemma SqlValsAppend(w: World, row: Row, a: seq<Sql>, b: seq<Sql>)
    ensures SqlVals(w, row, a + b) == SqlVals(w, row, a) + SqlVals(w, row, b)
  {
  }

  lemma {:induction false} ConcatCallVal(w: World, row: Row, args: seq<Sql>)
    ensures EvalSql(w, row, ConcatCall(args)) == SqlConcat(SqlVals(w, row, args))
  {
    EvalSqlAllIs(w, row, ConcatCall(args), args);
    assert EvalSqlAll(w, row, ConcatCall(args), args) == SqlVals(w, row, args);
  }

  lemma {:induction false} InListVal(w: World, row: Row, arg: Sql, elems: seq<Sql>)
    ensures EvalSql(w, row, InList(arg, elems)) == SqlIn(EvalSql(w, row, arg), SqlVals(w, row, elems))
  {
    EvalSqlAllIs(w, row, InList(arg, elems), elems);
    assert EvalSqlAll(w, row, InList(arg, elems), elems) == SqlVals(w, row, elems);
  }

  /** The flattened arguments of CONCAT spell what the nested additions spell. */
  predicate SumRel(v: Val, q: SqlVal) {
    q.T? && !v.VInt? && (v.VStr? ==> q == T(v.s))
  }

  lemma SumLeafKept(w: World, row: Row, ty: Ty, v: Val, q: SqlVal, tree: Sql)
    requires TextTy(ty) && Rel(w, ty, v, q) && EvalSql(w, row, tree) == q
    ensures SumRel(v, SqlConcat(SqlVals(w, row, [tree])))
  {
    var vs := SqlVals(w, row, [tree]);
    assert vs == [q] && vs[1..] == [];
    assert SqlConcat(vs[1..]) == T("");
    assert q.T? ==> q.s + "" == q.s;
  }

  lemma {:induction false} SumKept(w: World, row: Row, bound: Expr, e: Expr)
    requires e == bound || e < bound
    requires e == bound ==> e.Binary? && e.op.Add?
    requires SupportedSum(bound, e)
    ensures SumRel(Eval(w, row, e), SqlConcat(SqlVals(w, row, SumMeanings(bound, e))))
    decreases bound, 0, e
  {
    if e.Binary? && e.op.Add? {
      SumKept(w, row, bound, e.left);
      SumKept(w, row, bound, e.right);
      SumsJoin(w, row, SumMeanings(bound, e.left), SumMeanings(bound, e.right), Eval(w, row, e.left), Eval(w, row, e.right));
      assert Eval(w, row, e) == ArithVal(Add, Eval(w, row, e.left), Eval(w, row, e.right));
    } else {
      Preserves(w, row, e);
      SumLeafKept(w, row, e.ty, Eval(w, row, e), EvalSql(w, row, Meaning(e)), Meaning(e));
    }
  }

  lemma SumsJoin(w: World, row: Row, a: seq<Sql>, b: seq<Sql>, x: Val, y: Val)
    requires SumRel(x, SqlConcat(SqlVals(w, row, a))) && SumRel(y, SqlConcat(SqlVals(w, row, b)))
    ensures SumRel(ArithVal(Add, x, y), SqlConcat(SqlVals(w, row, a + b)))
  {
    SqlValsAppend(w, row, a, b);
    ConcatAppend(SqlVals(w, row, a), SqlVals(w, row, b));
  }

  /** The value an operand of an infix operator has after the coercion of the reading meant. */
  function OperandVal(w: World, row: Row, operand: Expr, other: Expr): Val {
    if Coerces(w, operand, other) then AsTime(w, Eval(w, row, operand)) else Eval(w, row, operand)
  }

  /** An operand that is cast, where the reading meant casts it too. */
  lemma OperandKept(w: World, row: Row, operand: Expr, other: Expr)
    requires Rel(w, operand.ty, Eval(w, row, operand), EvalSql(w, row, Meaning(operand)))
    requires OperandFitsRow(w, row, operand, other)
    requires w.lang.Cel? ==> !DynBesideTime(operand, other)
    ensures Rel(w, if DynBesideTime(operand, other) then TTimestamp else operand.ty, OperandVal(w, row, operand, other),
                EvalSql(w, row, Coerced(operand, other, Meaning(operand))))
  {
    if DynBesideTime(operand, other) {
      CastKept(w, operand.ty, Eval(w, row, operand), EvalSql(w, row, Meaning(operand)));
    }
  }

  /** What holds of the operands of an infix operator. */
  predicate OperandsKept(w: World, row: Row, e: Expr)
    requires e.Binary?
  {
    && Supported(e) && RowFits(w, row, e) && !e.op.In? && !IsConcat(e)
    && !IsJsonContains(e.left, e.op, e.right) && !IsJsonContains(e.right, e.op, e.left)
    && Rel(w, e.left.ty, Eval(w, row, e.left), EvalSql(w, row, Meaning(e.left)))
    && Rel(w, e.right.ty, Eval(w, row, e.right), EvalSql(w, row, Meaning(e.right)))
  }

  lemma {:induction false} InfixKept(w: World, row: Row, e: Expr)
    requires e.Binary? && OperandsKept(w, row, e)
    ensures Rel(w, e.ty, Eval(w, row, e), EvalSql(w, row, Meaning(e)))
  {
    InfixVal(w, row, e);
    if w.lang.Cel? && (DynBesideTime(e.left, e.right) || DynBesideTime(e.right, e.left)) {
      UncoercedKept(w, row, e);
    } else {
      OperandKept(w, row, e.left, e.right);
      OperandKept(w, row, e.right, e.left);
      PlainInfixKept(w, row, e);
    }
  }

  lemma UncoercedKept(w: World, row: Row, e: Expr)
    requires e.Binary? && OperandsKept(w, row, e)
    requires w.lang.Cel? && (DynBesideTime(e.left, e.right) || DynBesideTime(e.right, e.left))
    ensures Rel(w, e.ty, Eval(w, row, e), EvalSql(w, row, Meaning(e)))
  {
    InfixVal(w, row, e);
    var a, b := Eval(w, row, e.left), Eval(w, row, e.right);
    var p, q := EvalSql(w, row, Meaning(e.left)), EvalSql(w, row, Meaning(e.right));
    if DynBesideTime(e.left, e.right) {
      DynBesideTimeKept(w, e.op, a, b, p, q);
    } else {
      DynBesideTimeKept(w, e.op, b, a, q, p);
    }
  }

  lemma {:induction false} PlainInfixKept(w: World, row: Row, e: Expr)
    requires e.Binary? && OperandsKept(w, row, e)
    requires w.lang.Cel? ==> !DynBesideTime(e.left, e.right) && !DynBesideTime(e.right, e.left)
    requires Rel(w, if DynBesideTime(e.left, e.right) then TTimestamp else e.left.ty, OperandVal(w, row, e.left, e.right),
                 EvalSql(w, row, Coerced(e.left, e.right, Meaning(e.left))))
    requires Rel(w, if DynBesideTime(e.right, e.left) then TTimestamp else e.right.ty, OperandVal(w, row, e.right, e.left),
                 EvalSql(w, row, Coerced(e.right, e.left, Meaning(e.right))))
    ensures Rel(w, e.ty, Eval(w, row, e), EvalSql(w, row, Meaning(e)))
  {
    var a, b := OperandVal(w, row, e.left, e.right), OperandVal(w, row, e.right, e.left);
    var p := EvalSql(w, row, Coerced(e.left, e.right, Meaning(e.left)));
    var q := EvalSql(w, row, Coerced(e.right, e.left, Meaning(e.right)));
    var s := if DynBesideTime(e.left, e.right) then TTimestamp else e.left.ty;
    InfixVal(w, row, e);
    match e.op
    case And | Or => LogicKept(w, e.op, a, b, p, q);
    case Eq | Ne =>
      if TextTy(s) && TextTy(e.right.ty) { TextEqualityKept(w, e.op, s, e.right.ty, a, b, p, q); }
      else { EqualityKept(w, e.op, s, a, b, p, q); }
    case Lt | Le | Gt | Ge => OrderKept(w, e.op, s, a, b, p, q);
    case Add | Sub | Mul | Div | Mod => ArithKept(w, e.op, a, b, p, q);
  }

  lemma InfixVal(w: World, row: Row, e: Expr)
    requires e.Binary? && !e.op.In? && !IsConcat(e)
    requires !IsJsonContains(e.left, e.op, e.right) && !IsJsonContains(e.right, e.op, e.left)
    ensures Eval(w, row, e) == BinaryVal(e.op, OperandVal(w, row, e.left, e.right), OperandVal(w, row, e.right, e.left))
    ensures EvalSql(w, row, Meaning(e))
         == SqlBin(w, BinaryToken(e.op).op, EvalSql(w, row, Coerced(e.left, e.right, Meaning(e.left))),
                   EvalSql(w, row, Coerced(e.right, e.left, Meaning(e.right))))
  {
    assert Meaning(e) == Bin(BinaryToken(e.op).op, Coerced(e.left, e.right, Meaning(e.left)),
                             Coerced(e.right, e.left, Meaning(e.right)));
  }

  lemma {:induction false} InKept(w: World, row: Row, e: Expr)
    requires e.Binary? && Supported(e) && RowFits(w, row, e) && e.op.In? && !IsConcat(e)
    requires !IsJsonContains(e.left, e.op, e.right) && !IsJsonContains(e.right, e.op, e.left)
    requires Rel(w, e.left.ty, Eval(w, row, e.left), EvalSql(w, row, Meaning(e.left)))
    requires forall i :: 0 <= i < |e.right.elems| ==>
      Rel(w, e.right.elems[i].ty, Eval(w, row, e.right.elems[i]), EvalSql(w, row, Meaning(e.right.elems[i])))
    ensures Rel(w, e.ty, Eval(w, row, e), EvalSql(w, row, Meaning(e)))
  {
    var elems := e.right.elems;
    var vs := EvalAll(w, row, e, elems);
    EvalAllIs(w, row, e, elems);
    var qs := SqlVals(w, row, Meanings(e, elems));
    var tys := seq(|elems|, i requires 0 <= i < |elems| => elems[i].ty);
    var v, p := Eval(w, row, e.left), EvalSql(w, row, Meaning(e.left));
    MembershipKept(w, e.left.ty, v, p, vs, qs, tys);
    assert Meaning(e) == InList(Meaning(e.left), Meanings(e, elems));
    InListVal(w, row, Meaning(e.left), Meanings(e, elems));
    assert Eval(w, row, e) == InVal(v, vs);
  }

  lemma TimeCallKept(w: World, row: Row, e: Expr)
    requires e.TimeCall? && Supported(e) && RowFits(w, row, e)
    requires Rel(w, e.target.ty, Eval(w, row, e.target), EvalSql(w, row, Meaning(e.target)))
    ensures Rel(w, e.ty, Eval(w, row, e), EvalSql(w, row, Meaning(e)))
  {
    var v, q := Eval(w, row, e.target), EvalSql(w, row, Meaning(e.target));
    var arg := if e.target.ty.TDyn? then Cast(Meaning(e.target), TimestampTz) else Meaning(e.target);
    var time := if w.lang.Coercing? && e.target.ty.TDyn? then AsTime(w, v) else v;
    if e.target.ty.TDyn? {
      CastKept(w, TDyn, v, q);
    }
    var given := if e.target.ty.TDyn? && w.lang.Cel? then VErr else time;
    ExtractKept(w, row, e.get, given, arg);
    assert Eval(w, row, e) == TimeField(w, e.get, time) == TimeField(w, e.get, given);
  }

  lemma ExtractKept(w: World, row: Row, get: TimeGet, time: Val, arg: Sql)
    requires Rel(w, TTimestamp, time, EvalSql(w, row, arg))
    ensures var field := Extract(DateFieldOf(get), arg);
      Rel(w, TInt, TimeField(w, get, time),
          EvalSql(w, row, if Decremented(get) then Bin(SubOp, field, Lit(LInt(1))) else field))
  {
    var field := EvalSql(w, row, Extract(DateFieldOf(get), arg));
    assert EvalSql(w, row, Lit(LInt(1))) == I(1);
    assert time.VTime? ==> field == I(w.calendar(DateFieldOf(get), time.t));
  }

  /** Identifiers are columns under another name, or constants. */
  lemma IdentKept(w: World, row: Row, e: Expr)
    requires e.Ident? && Supported(e)
    ensures Rel(w, e.ty, Eval(w, row, e), EvalSql(w, row, Meaning(e)))
    ensures e.ty.TString? ==> Eval(w, row, e).VStr?
  {
  }

  /** Every supported expression keeps its value, on every row that fits it. */
  lemma {:induction false} Preserves(w: World, row: Row, e: Expr)
    requires Supported(e) && RowFits(w, row, e)
    ensures Rel(w, e.ty, Eval(w, row, e), EvalSql(w, row, Meaning(e)))
    decreases e, 1
  {
    match e
    case Const(_, _) =>
    case Ident(_, _, _) => IdentKept(w, row, e);
    case Select(_, _, _, _) => SelectKept(w, row, e);
    case Index(_, _, _) => IndexKept(w, row, e);
    case Not(_, arg) => Preserves(w, row, arg);
    case Binary(_, _, _, _) => BinaryKept(w, row, e);
    case TextCall(_, _, target, arg) =>
      Preserves(w, row, target);
      Preserves(w, row, arg);
      TextCallKept(w, row, e);
    case TimeCall(_, _, target, _) =>
      Preserves(w, row, target);
      TimeCallKept(w, row, e);
    case ToTimestamp(_, arg) =>
      Preserves(w, row, arg);
      ToTimestampKept(w, row, e);
  }

  lemma {:induction false} TextCallKept(w: World, row: Row, e: Expr)
    requires e.TextCall? && Supported(e) && RowFits(w, row, e)
    requires Rel(w, e.target.ty, Eval(w, row, e.target), EvalSql(w, row, Meaning(e.target)))
    requires Rel(w, e.arg.ty, Eval(w, row, e.arg), EvalSql(w, row, Meaning(e.arg)))
    ensures Rel(w, e.ty, Eval(w, row, e), EvalSql(w, row, Meaning(e)))
  {
    TextKept(w, e.fn, e.target.ty, e.arg.ty, Eval(w, row, e.target), Eval(w, row, e.arg),
             EvalSql(w, row, Meaning(e.target)), EvalSql(w, row, Meaning(e.arg)));
    TextMeaningVal(w, row, e.fn, Meaning(e.target), Meaning(e.arg));
  }

  lemma ToTimestampKept(w: World, row: Row, e: Expr)
    requires e.ToTimestamp? && Supported(e) && RowFits(w, row, e)
    requires Rel(w, e.arg.ty, Eval(w, row, e.arg), EvalSql(w, row, Meaning(e.arg)))
    ensures Rel(w, e.ty, Eval(w, row, e), EvalSql(w, row, Meaning(e)))
  {
    if e.arg.Select? { SelectKept(w, row, e.arg); }
    else if e.arg.Ident? { IdentKept(w, row, e.arg); }
    CastKept(w, e.arg.ty, Eval(w, row, e.arg), EvalSql(w, row, Meaning(e.arg)));
  }

  lemma {:induction false} BinaryKept(w: World, row: Row, e: Expr)
    requires e.Binary? && Supported(e) && RowFits(w, row, e)
    ensures Rel(w, e.ty, Eval(w, row, e), EvalSql(w, row, Meaning(e)))
    decreases e, 0
  {
    if IsConcat(e) {
      SumKept(w, row, e, e);
      ConcatCallVal(w, row, SumMeanings(e, e));
      assert Eval(w, row, e) == ArithVal(Add, Eval(w, row, e.left), Eval(w, row, e.right));
    } else if IsJsonContains(e.left, e.op, e.right) {
      ContainmentKept(w, row, e.left, e.right);
    } else if IsJsonContains(e.right, e.op, e.left) {
      ContainmentKept(w, row, e.right, e.left);
    } else if e.op.In? {
      Preserves(w, row, e.left);
      forall i | 0 <= i < |e.right.elems|
        ensures Rel(w, e.right.elems[i].ty, Eval(w, row, e.right.elems[i]), EvalSql(w, row, Meaning(e.right.elems[i])))
      {
        Preserves(w, row, e.right.elems[i]);
      }
      InKept(w, row, e);
    } else {
      Preserves(w, row, e.left);
      Preserves(w, row, e.right);
      InfixKept(w, row, e);
    }
  }
}
