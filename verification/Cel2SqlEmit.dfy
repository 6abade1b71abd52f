/**
 What the translator writes, as a function: the token string an expression leaves in the
 query buffer, or the way the translation fails. The stateful translator that appends to
 one buffer is `Cel2Sql.Interpreter`; it is proved to write exactly this.
 */
module Cel2SqlEmit {
  import opened Prelude
  import opened CelAst
  import opened SqlAst

  /** `Crash` is a nil dereference in the Go code, `Unsupported` an error it returns. */
  datatype Emitted = Ok(toks: seq<Token>) | Unsupported | Crash

  /** One step of a select/index chain. The root identifier and integer keys print without quotes. */
  datatype Field = Root(name: string) | Key(s: string) | Slot(i: int)

  datatype Path = Fields(fields: seq<Field>) | BadPath | CrashPath

  predicate IsDyn(e: Expr) { e.ty.TDyn? }
  predicate IsString(e: Expr) { e.ty.TString? }
  predicate IsRecordSummary(e: Expr) { e.ty.TSummary? }

  /** The types a filter may have: Boolean, and those the checker knows nothing about. */
  predicate BooleanAssignable(ty: Ty) { ty.TBool? || ty.TDyn? || ty.TAny? }

  function Then(a: Emitted, b: Emitted): Emitted {
    if !a.Ok? then a else if !b.Ok? then b else Ok(a.toks + b.toks)
  }

  lemma ThenAssociative(a: Emitted, b: Emitted, c: Emitted)
    ensures Then(Then(a, b), c) == Then(a, Then(b, c))
  {
    if a.Ok? && b.Ok? && c.Ok? {
      assert (a.toks + b.toks) + c.toks == a.toks + (b.toks + c.toks);
    }
  }

  function Column(name: string): string {
    match name
    case "uid" => "id"
    case "create_time" => "created_time"
    case "update_time" => "updated_time"
    case "data_type" => "type"
    case _ => name
  }

  function EmitConst(c: Const): Emitted {
    match c
    case NullConst => Ok([TLit(LNull)])
    case BoolConst(b) => Ok([TLit(LBool(b))])
    case IntConst(i) => Ok([TLit(LInt(i))])
    case UintConst(_) => Ok([TLit(LInt(0))])  // GetInt64Value of a uint constant is 0
    case DoubleConst(r) => Ok([TLit(LReal(r))])
    case StringConst(s) => Ok([TLit(LText(s))])
    case DurationConst(n) => Ok([TLit(LSeconds(n))])
    case TimestampConst(t) => Ok([TLit(LTimestamp(t))])
    case BytesConst => Unsupported
  }

  function EmitIdent(e: Expr): Emitted
    requires e.Ident?
  {
    match e.reference
    case Some(c) => EmitConst(c)
    case None => Ok([TWord(Column(e.name))])
  }

  /** The chain's fields from the leaf down to the root identifier, in the order they are collected. */
  function SelectFields(e: Expr): (p: Path)
    ensures p.Fields? ==> |p.fields| >= (if e.Ident? then 1 else 2)
  {
    match e
    case Ident(_, name, _) => Fields([Root(name)])
    case Select(_, operand, field, _) =>
      var rest := SelectFields(operand);
      if rest.Fields? then Fields([Key(field)] + rest.fields) else rest
    case Index(_, base, key) =>
      if !key.Const? then CrashPath
      else
        var rest := SelectFields(base);
        (match key.c
         case IntConst(i) => if rest.Fields? then Fields([Slot(i)] + rest.fields) else rest
         case StringConst(s) => if rest.Fields? then Fields([Key(s)] + rest.fields) else rest
         case _ => BadPath)
    case _ => BadPath
  }

  function Reverse<T>(s: seq<T>): (r: seq<T>)
    ensures |r| == |s|
  {
    if s == [] then [] else Reverse(s[1..]) + [s[0]]
  }

  lemma {:induction false} ReverseAt<T>(s: seq<T>, j: nat)
    requires j < |s|
    ensures Reverse(s)[j] == s[|s| - 1 - j]
  {
    if j < |s| - 1 {
      ReverseAt(s[1..], j);
    }
  }

  function Decimal(i: int): string
    decreases if i < 0 then 1 - i else i
  {
    if i < 0 then "-" + Decimal(-i)
    else if i < 10 then [['0', '1', '2', '3', '4', '5', '6', '7', '8', '9'][i]]
    else Decimal(i / 10) + Decimal(i % 10)
  }

  function FieldToken(f: Field): Token {
    match f
    case Root(name) => TWord(name)
    case Key(s) => TLit(LText(s))
    case Slot(i) => TLit(LInt(i))
  }

  function FieldName(f: Field): string {
    match f
    case Root(name) => name
    case Key(s) => s
    case Slot(i) => Decimal(i)
  }

  /** root -> f1 -> ... ->> leaf, without the enclosing parentheses. */
  function AccessorTokens(path: seq<Field>): seq<Token>
    requires |path| > 0
  {
    if |path| == 1 then [FieldToken(path[0])]
    else AccessorTokens(path[..|path| - 1]) + [TOp(ArrowOp), FieldToken(path[|path| - 1])]
  }

  function JsonTokens(path: seq<Field>): seq<Token>
    requires |path| > 1
  {
    [TLPar] + AccessorTokens(path[..|path| - 1]) + [TOp(ArrowTextOp), FieldToken(path[|path| - 1]), TRPar]
  }

  /** A select, or an index applied to a select (`key` is then the extra, outermost index). */
  function EmitSelect(e: Expr, key: Option<Expr>): Emitted
    requires e.Select?
  {
    var collected := SelectFields(e);
    if collected.BadPath? then Unsupported
    else if collected.CrashPath? then Crash
    else if key.Some? && !key.value.Const? then Unsupported
    else
      var path := Reverse(collected.fields) + (if key.Some? then [Key(ConstString(key.value))] else []);
      if IsDyn(e.operand) then Ok(JsonTokens(path))
      else if IsRecordSummary(e.operand) then Ok([TWord("recordsummary_" + FieldName(path[1]))])
      else Unsupported
  }

  predicate IsConcat(e: Expr) {
    e.Binary? && e.op.Add? && (IsString(e.left) || IsString(e.right))
  }

  /** Whether `indexed == literal` is written with the jsonb containment operator. */
  predicate IsJsonContains(indexed: Expr, op: BinOp, literal: Expr) {
    literal.Const? && literal.c.StringConst? && indexed.Index? && op.Eq? && !IsDyn(indexed.base)
  }

  function BinaryToken(op: BinOp): Token {
    match op
    case And => TOp(AndOp)
    case Or => TOp(OrOp)
    case Eq => TOp(EqOp)
    case Ne => TOp(NeOp)
    case Lt => TOp(LtOp)
    case Le => TOp(LeOp)
    case Gt => TOp(GtOp)
    case Ge => TOp(GeOp)
    case Add => TOp(AddOp)
    case Sub => TOp(SubOp)
    case Mul => TOp(MulOp)
    case Div => TOp(DivOp)
    case Mod => TOp(ModOp)
    case In => TIn
  }

  /** The cast written after a dyn operand, chosen by the other operand's type. */
  function Coercion(operand: Expr, other: Expr): Emitted {
    if !IsDyn(operand) then Ok([])
    else if other.ty.TUntyped? then Unsupported
    else if other.ty.TTimestamp? then Ok([TCast(TimestampTz)])
    else Ok([])
  }

  /** The leaves of a tree of additions; a leaf that is a call is dropped. */
  function ConcatLeaves(e: Expr): (leaves: seq<Expr>)
    ensures forall i :: 0 <= i < |leaves| ==> leaves[i] == e || leaves[i] < e
    ensures IsCall(e) ==> forall i :: 0 <= i < |leaves| ==> leaves[i] < e
  {
    if e.Binary? && e.op.Add? then ConcatLeaves(e.left) + ConcatLeaves(e.right)
    else if IsCall(e) then []
    else [e]
  }

  function DateFieldOf(get: TimeGet): DateField {
    match get
    case GetDate => Day
    case GetDayOfMonth => Day
    case GetDayOfWeek => Dow
    case GetDayOfYear => Doy
    case GetFullYear => Year
  }

  predicate Decremented(get: TimeGet) { get.GetDayOfMonth? || get.GetDayOfYear? }

  function Emit(e: Expr): Emitted
    decreases e, 0
  {
    match e
    case Const(_, c) => EmitConst(c)
    case Ident(_, _, _) => EmitIdent(e)
    case Select(_, _, _, _) => EmitSelect(e, None)
    case Not(_, arg) => Then(Then(Ok([TNot, TLPar]), Emit(arg)), Ok([TRPar]))
    case Binary(_, op, left, right) =>
      if IsConcat(e) then
        Then(Then(Ok([TConcat, TLPar]), EmitSeq(e, ConcatLeaves(e))), Ok([TRPar]))
      else if IsJsonContains(left, op, right) then
        Then(Emit(left.base), Ok(JsonObjectTokens(left.key, right)))
      else if IsJsonContains(right, op, left) then
        Then(Emit(right.base), Ok(JsonObjectTokens(right.key, left)))
      else
        EmitInfix(op, Operand(left, right), Operand(right, left))
    case Index(_, base, key) =>
      if base.Select? then EmitSelect(base, Some(key))
      else if base.Ident? then
        Then(EmitIdent(base), Ok([TOp(ArrowTextOp), TLit(LText(ConstString(key)))]))
      else Unsupported
    case TextCall(_, fn, target, arg) => EmitText(fn, Emit(target), Emit(arg))
    case TimeCall(_, get, _, _) =>
      if Decremented(get)
      then Then(Then(Ok([TLPar]), EmitExtract(e)), Ok([TOp(SubOp), TLit(LInt(1)), TRPar]))
      else EmitExtract(e)
    case ToTimestamp(_, arg) => Then(Emit(arg), Ok([TCast(TimestampTz)]))
    case ListLit(_, elems) => Then(Then(Ok([TLPar]), EmitSeq(e, elems)), Ok([TRPar]))
    case OtherCall(_) => Unsupported
    case OtherExpr(_) => Unsupported
  }

  function EmitExtract(e: Expr): Emitted
    requires e.TimeCall?
    decreases e, 0, 0
  {
    var cast := if IsDyn(e.target) then [TCast(TimestampTz)] else [];
    Then(Then(Ok([TExtract, TLPar, TField(DateFieldOf(e.get)), TFrom]), Emit(e.target)), Ok(cast + [TRPar]))
  }

  function EmitInfix(op: BinOp, left: Emitted, right: Emitted): Emitted {
    Then(Then(Then(Then(Ok([TLPar]), left), Ok([BinaryToken(op)])), right), Ok([TRPar]))
  }

  /** The operand order of each text function: `contains` writes its argument first. */
  function EmitText(fn: TextFn, target: Emitted, arg: Emitted): Emitted {
    match fn
    case Contains =>
      Then(Then(Then(Then(Ok([TPosition, TLPar]), arg), Ok([TIn])), target), Ok([TRPar, TOp(NeOp), TLit(LInt(0))]))
    case StartsWith =>
      Then(Then(Then(target, Ok([TOp(LikeOp)])), arg), Ok([TOp(ConcatOp), TLit(LText("%"))]))
    case EndsWith =>
      Then(Then(target, Ok([TOp(LikeOp), TLit(LText("%")), TOp(ConcatOp)])), arg)
    case Matches =>
      Then(Then(target, Ok([TOp(RegexOp)])), arg)
  }

  /** One operand of an infix operator, with its implicit cast. */
  function Operand(operand: Expr, other: Expr): Emitted
    decreases operand, 1
  {
    Then(Emit(operand), Coercion(operand, other))
  }

  function JsonObjectTokens(key: Expr, literal: Expr): seq<Token> {
    [TOp(ContainsOp), TLit(LObject(ConstString(key), ConstString(literal))), TCast(Jsonb)]
  }

  /** The expressions separated by commas. */
  function EmitSeq(bound: Expr, es: seq<Expr>): Emitted
    requires forall i :: 0 <= i < |es| ==> es[i] < bound
    decreases bound, 0, |es|
  {
    if es == [] then Ok([])
    else if |es| == 1 then Emit(es[0])
    else Then(Then(Emit(es[0]), Ok([TComma])), EmitSeq(bound, es[1..]))
  }
}
