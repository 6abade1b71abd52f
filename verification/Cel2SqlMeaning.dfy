/**
 The SQL expression each CEL expression is meant to become, and the expressions whose
 token string PostgreSQL reads back as that SQL expression.
 */
module Cel2SqlMeaning {
  import opened CelAst
  import opened SqlAst
  import opened Cel2SqlEmit

  function ConstMeaning(c: Const): Sql {
    match c
    case NullConst => Lit(LNull)
    case BoolConst(b) => Lit(LBool(b))
    case IntConst(i) => Lit(LInt(i))
    case UintConst(u) => Lit(LInt(u))
    case DoubleConst(r) => Lit(LReal(r))
    case StringConst(s) => Lit(LText(s))
    case DurationConst(n) => Lit(LSeconds(n))
    case TimestampConst(t) => Lit(LTimestamp(t))
    case BytesConst => Lit(LNull)
  }

  /** A key of a chain: field names and string keys are text, positions are numbers. */
  function KeyMeaning(key: Expr): Sql {
    if key.Const? then ConstMeaning(key.c) else Lit(LNull)
  }

  /** The chain as nested JSON lookups, written from the expression itself and not from its field list. */
  function ChainMeaning(e: Expr): Sql {
    match e
    case Ident(_, name, _) => Col(name)
    case Select(_, operand, field, _) => Bin(ArrowOp, ChainMeaning(operand), Lit(LText(field)))
    case Index(_, base, key) => Bin(ArrowOp, ChainMeaning(base), KeyMeaning(key))
    case _ => Lit(LNull)
  }

  function InfixMeaning(op: BinOp, left: Sql, right: Sql): Sql {
    match BinaryToken(op)
    case TOp(sqlOp) => Bin(sqlOp, left, right)
    case _ => InList(left, [right])
  }

  function TextMeaning(fn: TextFn, target: Sql, arg: Sql): Sql {
    match fn
    case Contains => Bin(NeOp, Position(arg, target), Lit(LInt(0)))
    case StartsWith => Bin(LikeOp, target, Bin(ConcatOp, arg, Lit(LText("%"))))
    case EndsWith => Bin(LikeOp, target, Bin(ConcatOp, Lit(LText("%")), arg))
    case Matches => Bin(RegexOp, target, arg)
  }

  function Coerced(operand: Expr, other: Expr, meaning: Sql): Sql {
    if IsDyn(operand) && other.ty.TTimestamp? then Cast(meaning, TimestampTz) else meaning
  }

  function ObjectLiteral(key: Expr, literal: Expr): Sql {
    Cast(Lit(LObject(ConstString(key), ConstString(literal))), Jsonb)
  }

  function Meaning(e: Expr): Sql
    decreases e, 0
  {
    match e
    case Const(_, c) => ConstMeaning(c)
    case Ident(_, name, reference) => if reference.Some? then ConstMeaning(reference.value) else Col(Column(name))
    case Select(_, operand, field, _) =>
      if IsRecordSummary(operand) then Col("recordsummary_" + field)
      else Bin(ArrowTextOp, ChainMeaning(operand), Lit(LText(field)))
    case Not(_, arg) => SNot(Meaning(arg))
    case Binary(_, op, left, right) =>
      if IsConcat(e) then ConcatCall(SumMeanings(e, e))
      else if IsJsonContains(left, op, right) then Bin(ContainsOp, Meaning(left.base), ObjectLiteral(left.key, right))
      else if IsJsonContains(right, op, left) then Bin(ContainsOp, Meaning(right.base), ObjectLiteral(right.key, left))
      else if op.In? && right.ListLit? then InList(Coerced(left, right, Meaning(left)), Meanings(e, right.elems))
      else InfixMeaning(op, Coerced(left, right, Meaning(left)), Coerced(right, left, Meaning(right)))
    case Index(_, base, key) =>
      if base.Ident? then Bin(ArrowTextOp, Meaning(base), KeyMeaning(key))
      else Bin(ArrowTextOp, ChainMeaning(base), KeyMeaning(key))
    case TextCall(_, fn, target, arg) => TextMeaning(fn, Meaning(target), Meaning(arg))
    case TimeCall(_, get, target, _) =>
      var field := Extract(DateFieldOf(get), if IsDyn(target) then Cast(Meaning(target), TimestampTz) else Meaning(target));
      if Decremented(get) then Bin(SubOp, field, Lit(LInt(1))) else field
    case ToTimestamp(_, arg) => Cast(Meaning(arg), TimestampTz)
    case ListLit(_, _) => Lit(LNull)
    case OtherCall(_) => Lit(LNull)
    case OtherExpr(_) => Lit(LNull)
  }

  /** The operands of a tree of additions, in order: the arguments CONCAT should get. */
  function SumMeanings(bound: Expr, e: Expr): seq<Sql>
    requires e == bound || e < bound
    requires e == bound ==> e.Binary? && e.op.Add?
    decreases bound, 0, e
  {
    if e.Binary? && e.op.Add? then SumMeanings(bound, e.left) + SumMeanings(bound, e.right)
    else [Meaning(e)]
  }

  function Meanings(bound: Expr, es: seq<Expr>): (r: seq<Sql>)
    requires forall i :: 0 <= i < |es| ==> es[i] < bound
    ensures |r| == |es|
    ensures forall i :: 0 <= i < |es| ==> r[i] == Meaning(es[i])
    decreases bound, 0, |es|
  {
    if es == [] then [] else [Meaning(es[0])] + Meanings(bound, es[1..])
  }

  /** How tightly the outermost operator the translator leaves unparenthesised binds. */
  function Shape(e: Expr): nat {
    match e
    case Not(_, _) => 2
    case Binary(_, op, left, right) =>
      if !IsConcat(e) && (IsJsonContains(left, op, right) || IsJsonContains(right, op, left)) then 5 else 9
    case Index(_, base, _) => if base.Ident? then 5 else 9
    case TextCall(_, fn, _, _) =>
      (match fn case Contains => 3 case StartsWith => 4 case EndsWith => 4 case Matches => 5)
    case ToTimestamp(_, _) => 8
    case _ => 9
  }

  /** A chain whose every key is a constant string or integer, down to an identifier. */
  predicate ConstantChain(e: Expr) {
    match e
    case Ident(_, _, _) => true
    case Select(_, operand, _, _) => ConstantChain(operand)
    case Index(_, base, key) => ConstantChain(base) && key.Const? && (key.c.IntConst? || key.c.StringConst?)
    case _ => false
  }

  /** How tightly the operands of an infix operator must bind for the reading to keep them whole. */
  function Needs(op: BinOp): nat {
    ContinueLevel(BinaryToken(op)) + 1
  }

  predicate OperandFits(operand: Expr, other: Expr, level: nat) {
    && !(IsDyn(operand) && other.ty.TUntyped?)
    && Shape(operand) >= (if IsDyn(operand) && other.ty.TTimestamp? then 8 else level)
  }

  predicate IsStringConst(e: Expr) { e.Const? && e.c.StringConst? }

  predicate PlainConst(c: Const) { !c.BytesConst? && (c.UintConst? ==> c.u == 0) }

  /**
   The expressions that are translated without loss: nothing in them is rejected, dropped or
   replaced by a default, and no operand's bare operator competes with its context.
   */
  predicate Readable(e: Expr)
    decreases e, 0
  {
    match e
    case Const(_, c) => PlainConst(c)
    case Ident(_, _, reference) => reference.Some? ==> PlainConst(reference.value)
    case Select(_, operand, _, testOnly) =>
      !testOnly && ((IsDyn(operand) && ConstantChain(operand)) || (IsRecordSummary(operand) && operand.Ident?))
    case Not(_, arg) => Readable(arg)
    case Binary(_, op, left, right) =>
      if IsConcat(e) then ReadableSum(e, e)
      else if IsJsonContains(left, op, right) then
        Readable(left.base) && Shape(left.base) == 9 && IsStringConst(left.key)
      else if IsJsonContains(right, op, left) then
        Readable(right.base) && Shape(right.base) == 9 && IsStringConst(right.key)
      else if op.In? then
        && Readable(left) && OperandFits(left, right, Needs(op))
        && right.ListLit? && right.elems != [] && !IsDyn(right)
        && forall i :: 0 <= i < |right.elems| ==> Readable(right.elems[i])
      else
        && Readable(left) && OperandFits(left, right, Needs(op))
        && Readable(right) && OperandFits(right, left, Needs(op))
    case Index(_, base, key) =>
      && IsStringConst(key)
      && ((base.Ident? && base.reference.None?) || (base.Select? && IsDyn(base.operand) && ConstantChain(base.operand)))
    case TextCall(_, fn, target, arg) =>
      && Readable(target) && Shape(target) >= 5
      && Readable(arg) && Shape(arg) >= (if fn.EndsWith? || fn.Matches? then 6 else 5)
    case TimeCall(_, _, target, zone) =>
      zone.None? && Readable(target) && (IsDyn(target) ==> Shape(target) >= 8)
    case ToTimestamp(_, arg) => Readable(arg) && Shape(arg) >= 8
    case _ => false
  }

  /** Every operand of the additions is readable and none is a call, which CONCAT's argument list would lose. */
  predicate ReadableSum(bound: Expr, e: Expr)
    requires e == bound || e < bound
    requires e == bound ==> e.Binary? && e.op.Add?
    decreases bound, 0, e
  {
    if e.Binary? && e.op.Add? then ReadableSum(bound, e.left) && ReadableSum(bound, e.right)
    else !IsCall(e) && Readable(e)
  }
}
