/** The stateful translator of pkg/api/server/cel2sql: one buffer, appended to while walking the expression. */
module Cel2Sql {
  import opened Prelude
  import opened CelAst
  import opened SqlAst
  import opened Cel2SqlEmit

  datatype Status = Done | Rejected | Crashed

  /** The buffer grew from `before` to `after` as `spec` says. */
  ghost predicate Wrote(before: seq<Token>, after: seq<Token>, s: Status, spec: Emitted) {
    && before <= after
    && match spec
       case Ok(toks) => s.Done? && after == before + toks
       case Unsupported => s.Rejected?
       case Crash => s.Crashed?
  }

  /** Two writes in a row, the first of which succeeded. */
  lemma WroteThen(q0: seq<Token>, q1: seq<Token>, q2: seq<Token>, s: Status, first: Emitted, second: Emitted)
    requires Wrote(q0, q1, Done, first) && Wrote(q1, q2, s, second)
    ensures Wrote(q0, q2, s, Then(first, second))
  {
    assert second.Ok? ==> q0 + (first.toks + second.toks) == (q0 + first.toks) + second.toks;
  }

  /** The first of several expressions with the comma that follows it, if one does. */
  function Separated(es: seq<Expr>): Emitted
    requires es != []
  {
    Then(Emit(es[0]), if |es| == 1 then Ok([]) else Ok([TComma]))
  }

  lemma EmitSeqUnfold(bound: Expr, es: seq<Expr>)
    requires es != [] && forall i :: 0 <= i < |es| ==> es[i] < bound
    ensures EmitSeq(bound, es) == Then(Separated(es), EmitSeq(bound, es[1..]))
  {
    if |es| == 1 && Emit(es[0]).Ok? {
      assert Emit(es[0]).toks + [] + [] == Emit(es[0]).toks;
    }
  }

  /** Collects the fields of a chain from leaf to root. */
  method GetSelectFields(e: Expr) returns (p: Path)
    ensures p == SelectFields(e)
    decreases e
  {
    var fields: seq<Field>;
    var target: Expr;
    match e {
      case Ident(_, name, _) => return Fields([Root(name)]);
      case Select(_, operand, field, _) =>
        fields, target := [Key(field)], operand;
      case Index(_, base, key) =>
        if !key.Const? { return CrashPath; }
        match key.c {
          case IntConst(i) => fields := [Slot(i)];
          case StringConst(s) => fields := [Key(s)];
          case _ => return BadPath;
        }
        target := base;
      case _ => return BadPath;
    }
    var rest := GetSelectFields(target);
    if !rest.Fields? { return rest; }
    return Fields(fields + rest.fields);
  }

  method ReverseFields(fields: seq<Field>) returns (reversed: seq<Field>)
    ensures reversed == Reverse(fields)
  {
    var out := new Field[|fields|](i requires 0 <= i < |fields| => fields[i]);
    var j, k := 0, |fields| - 1;
    while j < out.Length
      invariant 0 <= j <= out.Length && k == |fields| - 1 - j
      invariant forall x :: 0 <= x < j ==> out[x] == fields[|fields| - 1 - x]
    {
      out[j] := fields[k];
      j, k := j + 1, k - 1;
    }
    reversed := out[..];
    forall x | 0 <= x < |fields| ensures reversed[x] == Reverse(fields)[x] {
      ReverseAt(fields, x);
    }
  }

  method AllStringConcatArgs(e: Expr) returns (args: seq<Expr>)
    ensures args == ConcatLeaves(e)
    decreases e
  {
    args := [];
    if IsCall(e) {
      if e.Binary? && e.op.Add? {
        var left := AllStringConcatArgs(e.left);
        var right := AllStringConcatArgs(e.right);
        args := args + left + right;
      }
    } else {
      args := args + [e];
    }
  }

  class Interpreter {
    var query: seq<Token>

    constructor ()
      ensures query == []
    {
      query := [];
    }

    method Write(toks: seq<Token>)
      modifies this
      ensures query == old(query) + toks
    {
      query := query + toks;
    }

    method InterpretConst(c: Const) returns (s: Status)
      modifies this
      ensures Wrote(old(query), query, s, EmitConst(c))
    {
      match c {
        case NullConst => Write([TLit(LNull)]);
        case BoolConst(b) => Write([TLit(LBool(b))]);
        case IntConst(i) => Write([TLit(LInt(i))]);
        case UintConst(_) => Write([TLit(LInt(0))]);
        case DoubleConst(r) => Write([TLit(LReal(r))]);
        case StringConst(text) => Write([TLit(LText(text))]);
        case DurationConst(n) => Write([TLit(LSeconds(n))]);
        case TimestampConst(t) => Write([TLit(LTimestamp(t))]);
        case BytesConst => return Rejected;
      }
      return Done;
    }

    method InterpretIdent(e: Expr) returns (s: Status)
      requires e.Ident?
      modifies this
      ensures Wrote(old(query), query, s, EmitIdent(e))
    {
      if e.reference.Some? {
        s := InterpretConst(e.reference.value);
        return;
      }
      Write([TWord(Column(e.name))]);
      return Done;
    }

    /** The "->" after the last inner field and the ">" before the leaf make up the one operator ->>. */
    method TranslateToJsonAccessors(path: seq<Field>)
      requires |path| > 1
      modifies this
      ensures query == old(query) + JsonTokens(path)
    {
      Write([TLPar, FieldToken(path[0])]);
      var i := 1;
      while i < |path| - 1
        invariant 1 <= i <= |path| - 1
        invariant query == old(query) + [TLPar] + AccessorTokens(path[..i])
      {
        Write([TOp(ArrowOp), FieldToken(path[i])]);
        assert path[..i + 1][..i] == path[..i];
        i := i + 1;
      }
      Write([TOp(ArrowTextOp), FieldToken(path[|path| - 1]), TRPar]);
    }

    method TranslateToRecordSummaryColumn(path: seq<Field>)
      requires |path| > 1
      modifies this
      ensures query == old(query) + [TWord("recordsummary_" + FieldName(path[1]))]
    {
      Write([TWord("recordsummary_" + FieldName(path[1]))]);
    }

    method InterpretSelect(e: Expr, key: Option<Expr>) returns (s: Status)
      requires e.Select?
      modifies this
      ensures Wrote(old(query), query, s, EmitSelect(e, key))
    {
      var collected := GetSelectFields(e);
      if collected.BadPath? { return Rejected; }
      if collected.CrashPath? { return Crashed; }
      var path := ReverseFields(collected.fields);
      if key.Some? {
        if !key.value.Const? { return Rejected; }
        path := path + [Key(ConstString(key.value))];
      } else {
        assert path == path + [];
      }
      if IsDyn(e.operand) {
        TranslateToJsonAccessors(path);
        return Done;
      }
      if IsRecordSummary(e.operand) {
        TranslateToRecordSummaryColumn(path);
        return Done;
      }
      return Rejected;
    }

    method CoerceToTypeOf(operand: Expr, other: Expr) returns (s: Status)
      modifies this
      ensures Wrote(old(query), query, s, Coercion(operand, other))
    {
      if IsDyn(operand) {
        if other.ty.TUntyped? { return Rejected; }
        if other.ty.TTimestamp? { Write([TCast(TimestampTz)]); }
      }
      return Done;
    }

    method InterpretExpr(e: Expr) returns (s: Status)
      modifies this
      ensures Wrote(old(query), query, s, Emit(e))
      decreases e, 1
    {
      match e {
        case Const(_, c) => s := InterpretConst(c);
        case Ident(_, _, _) => s := InterpretIdent(e);
        case Select(_, _, _, _) => s := InterpretSelect(e, None);
        case Not(_, arg) =>
          Write([TNot, TLPar]);
          s := InterpretExpr(arg);
          if !s.Done? { return; }
          Write([TRPar]);
        case Binary(_, _, _, _) => s := InterpretBinary(e);
        case Index(_, base, key) =>
          if base.Select? {
            s := InterpretSelect(base, Some(key));
          } else if base.Ident? {
            s := InterpretIdent(base);
            if !s.Done? { return; }
            Write([TOp(ArrowTextOp), TLit(LText(ConstString(key)))]);
          } else {
            return Rejected;
          }
        case TextCall(_, _, _, _) => s := InterpretTextCall(e);
        case TimeCall(_, _, _, _) => s := InterpretTimeCall(e);
        case ToTimestamp(_, arg) =>
          s := InterpretExpr(arg);
          if !s.Done? { return; }
          Write([TCast(TimestampTz)]);
        case ListLit(_, elems) =>
          Write([TLPar]);
          s := InterpretSeq(e, elems);
          if !s.Done? { return; }
          Write([TRPar]);
        case OtherCall(_) => return Rejected;
        case OtherExpr(_) => return Rejected;
      }
    }

    method InterpretBinary(e: Expr) returns (s: Status)
      requires e.Binary?
      modifies this
      ensures Wrote(old(query), query, s, Emit(e))
      decreases e, 0, 1
    {
      if IsConcat(e) {
        var args := AllStringConcatArgs(e);
        Write([TConcat, TLPar]);
        s := InterpretSeq(e, args);
        if !s.Done? { return; }
        Write([TRPar]);
        return;
      }
      if IsJsonContains(e.left, e.op, e.right) {
        s := InterpretExpr(e.left.base);
        if !s.Done? { return; }
        Write(JsonObjectTokens(e.left.key, e.right));
        return;
      }
      if IsJsonContains(e.right, e.op, e.left) {
        s := InterpretExpr(e.right.base);
        if !s.Done? { return; }
        Write(JsonObjectTokens(e.right.key, e.left));
        return;
      }
      ghost var q0 := query;
      Write([TLPar]);
      ghost var q1 := query;
      s := InterpretOperand(e, e.left, e.right);
      WroteThen(q0, q1, query, s, Ok([TLPar]), Operand(e.left, e.right));
      if !s.Done? { return; }
      ghost var q2 := query;
      Write([BinaryToken(e.op)]);
      WroteThen(q0, q2, query, s, Then(Ok([TLPar]), Operand(e.left, e.right)), Ok([BinaryToken(e.op)]));
      ghost var q3 := query;
      s := InterpretOperand(e, e.right, e.left);
      ghost var sofar := Then(Then(Ok([TLPar]), Operand(e.left, e.right)), Ok([BinaryToken(e.op)]));
      WroteThen(q0, q3, query, s, sofar, Operand(e.right, e.left));
      if !s.Done? { return; }
      ghost var q4 := query;
      Write([TRPar]);
      WroteThen(q0, q4, query, s, Then(sofar, Operand(e.right, e.left)), Ok([TRPar]));
    }

    /** One operand of an infix operator, with its implicit cast. */
    method InterpretOperand(ghost parent: Expr, operand: Expr, other: Expr) returns (s: Status)
      requires operand < parent
      modifies this
      ensures Wrote(old(query), query, s, Operand(operand, other))
      decreases parent, 0, 0
    {
      ghost var q0 := query;
      s := InterpretExpr(operand);
      if !s.Done? { return; }
      ghost var q1 := query;
      s := CoerceToTypeOf(operand, other);
      WroteThen(q0, q1, query, s, Emit(operand), Coercion(operand, other));
    }

    method InterpretTextCall(e: Expr) returns (s: Status)
      requires e.TextCall?
      modifies this
      ensures Wrote(old(query), query, s, Emit(e))
      decreases e, 0
    {
      ghost var q0 := query;
      if e.fn.Contains? {
        Write([TPosition, TLPar]);
        ghost var q1 := query;
        s := InterpretExpr(e.arg);
        WroteThen(q0, q1, query, s, Ok([TPosition, TLPar]), Emit(e.arg));
        if !s.Done? { return; }
        ghost var q2 := query;
        ghost var sofar := Then(Ok([TPosition, TLPar]), Emit(e.arg));
        Write([TIn]);
        WroteThen(q0, q2, query, s, sofar, Ok([TIn]));
        ghost var q3 := query;
        s := InterpretExpr(e.target);
        WroteThen(q0, q3, query, s, Then(sofar, Ok([TIn])), Emit(e.target));
        if !s.Done? { return; }
        ghost var q4 := query;
        Write([TRPar, TOp(NeOp), TLit(LInt(0))]);
        WroteThen(q0, q4, query, s, Then(Then(sofar, Ok([TIn])), Emit(e.target)),
                  Ok([TRPar, TOp(NeOp), TLit(LInt(0))]));
        return;
      }
      s := InterpretExpr(e.target);
      if !s.Done? { return; }
      ghost var q1 := query;
      var infix := match e.fn
        case StartsWith => [TOp(LikeOp)]
        case EndsWith => [TOp(LikeOp), TLit(LText("%")), TOp(ConcatOp)]
        case Matches => [TOp(RegexOp)];
      Write(infix);
      WroteThen(q0, q1, query, s, Emit(e.target), Ok(infix));
      ghost var q2 := query;
      ghost var sofar := Then(Emit(e.target), Ok(infix));
      s := InterpretExpr(e.arg);
      WroteThen(q0, q2, query, s, sofar, Emit(e.arg));
      if !s.Done? { return; }
      if e.fn.StartsWith? {
        ghost var q3 := query;
        Write([TOp(ConcatOp), TLit(LText("%"))]);
        WroteThen(q0, q3, query, s, Then(sofar, Emit(e.arg)), Ok([TOp(ConcatOp), TLit(LText("%"))]));
      }
    }

    method InterpretTimeCall(e: Expr) returns (s: Status)
      requires e.TimeCall?
      modifies this
      ensures Wrote(old(query), query, s, Emit(e))
      decreases e, 0, 1
    {
      ghost var q0 := query;
      if Decremented(e.get) { Write([TLPar]); }
      ghost var q1 := query;
      s := InterpretExtract(e);
      WroteThen(q0, q1, query, s, if Decremented(e.get) then Ok([TLPar]) else Ok([]), EmitExtract(e));
      if !s.Done? || !Decremented(e.get) { return; }
      ghost var q2 := query;
      Write([TOp(SubOp), TLit(LInt(1)), TRPar]);
      WroteThen(q0, q2, query, s, Then(Ok([TLPar]), EmitExtract(e)), Ok([TOp(SubOp), TLit(LInt(1)), TRPar]));
    }

    method InterpretExtract(e: Expr) returns (s: Status)
      requires e.TimeCall?
      modifies this
      ensures Wrote(old(query), query, s, EmitExtract(e))
      decreases e, 0, 0
    {
      ghost var q0 := query;
      ghost var open := Ok([TExtract, TLPar, TField(DateFieldOf(e.get)), TFrom]);
      Write([TExtract, TLPar, TField(DateFieldOf(e.get)), TFrom]);
      ghost var q1 := query;
      s := InterpretExpr(e.target);
      WroteThen(q0, q1, query, s, open, Emit(e.target));
      if !s.Done? { return; }
      ghost var q2 := query;
      if IsDyn(e.target) { Write([TCast(TimestampTz)]); }
      Write([TRPar]);
      WroteThen(q0, q2, query, s, Then(open, Emit(e.target)),
                Ok((if IsDyn(e.target) then [TCast(TimestampTz)] else []) + [TRPar]));
    }

    method InterpretSeq(ghost bound: Expr, es: seq<Expr>) returns (s: Status)
      requires forall i :: 0 <= i < |es| ==> es[i] < bound
      modifies this
      ensures Wrote(old(query), query, s, EmitSeq(bound, es))
      decreases bound, 0, 0
    {
      ghost var start := query;
      ghost var sofar := Ok([]);
      s := Done;
      var i := 0;
      while i < |es|
        invariant 0 <= i <= |es| && s.Done?
        invariant Wrote(start, query, Done, sofar)
        invariant Then(sofar, EmitSeq(bound, es[i..])) == EmitSeq(bound, es)
      {
        EmitSeqUnfold(bound, es[i..]);
        assert es[i..][1..] == es[i + 1..];
        ghost var before := query;
        s := InterpretExpr(es[i]);
        WroteThen(start, before, query, s, sofar, Emit(es[i]));
        ThenAssociative(sofar, Emit(es[i]), if i < |es| - 1 then Ok([TComma]) else Ok([]));
        ThenAssociative(sofar, Separated(es[i..]), EmitSeq(bound, es[i + 1..]));
        if !s.Done? { return; }
        sofar := Then(sofar, Emit(es[i]));
        if i < |es| - 1 {
          ghost var after := query;
          Write([TComma]);
          WroteThen(start, after, query, s, sofar, Ok([TComma]));
          sofar := Then(sofar, Ok([TComma]));
        }
        i := i + 1;
      }
    }
  }

  /** A filter is refused outright, or the translator's result is what it is. */
  datatype Conversion = NotBoolean | Converted(result: Emitted)

  /** The whole conversion: the type is checked, then a fresh buffer, one walk, the buffer's contents. */
  method Convert(e: Expr) returns (r: Conversion)
    ensures r == if BooleanAssignable(e.ty) then Converted(Emit(e)) else NotBoolean
  {
    if !BooleanAssignable(e.ty) { return NotBoolean; }
    var i := new Interpreter();
    var s := i.InterpretExpr(e);
    match s {
      case Done => return Converted(Ok(i.query));
      case Rejected => return Converted(Unsupported);
      case Crashed => return Converted(Crash);
    }
  }
}
