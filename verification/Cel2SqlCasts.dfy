/** What a trailing operator takes when the operand before it, or after it, is not in parentheses. */
module Cel2SqlCasts {
  import opened Prelude
  import opened CelAst
  import opened SqlAst
  import opened Cel2SqlEmit
  import opened Cel2SqlMeaning
  import opened SqlReader
  import opened Cel2SqlReadback
  import opened Cel2SqlTheorems

  function AsTimestamp(q: Sql): Sql { Cast(q, TimestampTz) }

  /** How an operand followed by ::TIMESTAMP WITH TIME ZONE is read: the cast takes the last tight piece of it. */
  function CastTree(e: Expr): Sql {
    if Shape(e) >= 8 then AsTimestamp(Meaning(e))
    else
      match e
      case Not(_, arg) => SNot(AsTimestamp(Meaning(arg)))
      case Index(_, base, key) => Bin(ArrowTextOp, Meaning(base), AsTimestamp(KeyMeaning(key)))
      case TextCall(_, fn, target, arg) =>
        (match fn
         case Contains => Bin(NeOp, Position(Meaning(arg), Meaning(target)), AsTimestamp(Lit(LInt(0))))
         case StartsWith => Bin(LikeOp, Meaning(target), Bin(ConcatOp, Meaning(arg), AsTimestamp(Lit(LText("%")))))
         case EndsWith => Bin(LikeOp, Meaning(target), Bin(ConcatOp, Lit(LText("%")), AsTimestamp(Meaning(arg))))
         case Matches => Bin(RegexOp, Meaning(target), AsTimestamp(Meaning(arg))))
      case Binary(_, op, left, right) =>
        if IsJsonContains(left, op, right)
        then Bin(ContainsOp, Meaning(left.base), AsTimestamp(ObjectLiteral(left.key, right)))
        else if IsJsonContains(right, op, left)
        then Bin(ContainsOp, Meaning(right.base), AsTimestamp(ObjectLiteral(right.key, left)))
        else Lit(LNull)
      case _ => Lit(LNull)
  }

  function CastLevel(e: Expr): nat { if Shape(e) < 8 then Shape(e) else 8 }

  function WithCast(rest: seq<Token>): seq<Token> { [TCast(TimestampTz)] + rest }

  /** A piece read at the tightest levels takes the cast that follows it. */
  lemma TakesCast(ts: seq<Token>, tree: Sql, rest: seq<Token>, level: nat)
    requires Parse(9, ts) == Got(tree, WithCast(rest)) && 2 <= level <= 8 && Level(rest) < level
    ensures Parse(level, ts) == Got(AsTimestamp(tree), rest)
  {
    CastStep(tree, TimestampTz, rest);
    Loosen(8, level, ts);
  }

  lemma LiteralTakesCast(lit: SqlLit, rest: seq<Token>, level: nat)
    requires 2 <= level <= 8 && Level(rest) < level
    ensures Parse(level, [TLit(lit)] + WithCast(rest)) == Got(AsTimestamp(Lit(lit)), rest)
  {
    AtomReads(9, TLit(lit), WithCast(rest));
    TakesCast([TLit(lit)] + WithCast(rest), Lit(lit), rest, level);
  }

  lemma TightTakesCast(e: Expr, rest: seq<Token>, level: nat)
    requires Readable(e) && Shape(e) >= 8 && 2 <= level <= 8 && Level(rest) < level
    ensures Emit(e).Ok? && Parse(level, Emit(e).toks + WithCast(rest)) == Got(AsTimestamp(Meaning(e)), rest)
  {
    CastReads(e, rest);
    Loosen(8, level, Emit(e).toks + WithCast(rest));
  }

  lemma NotGroupTakesCast(inner: seq<Token>, tree: Sql, rest: seq<Token>)
    requires Parse(0, inner + ([TRPar] + WithCast(rest))) == Got(tree, [TRPar] + WithCast(rest)) && Level(rest) < 2
    ensures Parse(2, [TNot, TLPar] + (inner + ([TRPar] + WithCast(rest)))) == Got(SNot(AsTimestamp(tree)), rest)
  {
    var body := inner + ([TRPar] + WithCast(rest));
    GroupStep(body, tree, WithCast(rest));
    TakesCast([TLPar] + body, tree, rest, 2);
    NotStep([TLPar] + body, AsTimestamp(tree), rest);
    assert [TNot, TLPar] + body == [TNot] + ([TLPar] + body);
  }

  lemma NotTakesCast(e: Expr, rest: seq<Token>)
    requires Readable(e) && e.Not? && Level(rest) < 2
    ensures Emit(e).Ok? && Parse(2, Emit(e).toks + WithCast(rest)) == Got(CastTree(e), rest)
  {
    ReadsInside(e.arg, [TRPar] + WithCast(rest));
    NotGroupTakesCast(Emit(e.arg).toks, Meaning(e.arg), rest);
    WrappedTokens([TNot, TLPar], Emit(e.arg).toks, [TRPar], WithCast(rest));
  }

  lemma ContainsTakesCast(e: Expr, rest: seq<Token>)
    requires Readable(e) && e.TextCall? && e.fn.Contains? && Level(rest) < 3
    ensures Emit(e).Ok? && Parse(3, Emit(e).toks + WithCast(rest)) == Got(CastTree(e), rest)
  {
    ContainsStops(e, WithCast(rest));
    var zero := [TLit(LInt(0))] + WithCast(rest);
    LiteralTakesCast(LInt(0), rest, 4);
    InfixStep(3, Emit(e).toks + WithCast(rest), Position(Meaning(e.arg), Meaning(e.target)), NeOp, zero,
              AsTimestamp(Lit(LInt(0))), rest);
  }

  /** target LIKE pattern, where the pattern has been read whole. */
  lemma LikeReads(target: Expr, pattern: seq<Token>, tree: Sql, rest: seq<Token>)
    requires Readable(target) && Shape(target) >= 5 && Level(rest) < 4 && Parse(5, pattern) == Got(tree, rest)
    ensures Emit(target).Ok?
    ensures Parse(4, Emit(target).toks + ([TOp(LikeOp)] + pattern)) == Got(Bin(LikeOp, Meaning(target), tree), rest)
  {
    ReadsAsHead(target, [TOp(LikeOp)] + pattern);
    InfixStep(4, Emit(target).toks + ([TOp(LikeOp)] + pattern), Meaning(target), LikeOp, pattern, tree, rest);
  }

  lemma {:induction false} StartsWithTakesCast(e: Expr, rest: seq<Token>)
    requires Readable(e) && e.TextCall? && e.fn.StartsWith? && Level(rest) < 4
    ensures Emit(e).Ok? && Parse(4, Emit(e).toks + WithCast(rest)) == Got(CastTree(e), rest)
  {
    var percent := [TLit(LText("%"))] + WithCast(rest);
    LiteralTakesCast(LText("%"), rest, 6);
    ReadsAsHead(e.arg, [TOp(ConcatOp)] + percent);
    ClimbStep(5, Meaning(e.arg), ConcatOp, percent, AsTimestamp(Lit(LText("%"))), rest);
    var pattern := Emit(e.arg).toks + ([TOp(ConcatOp)] + percent);
    LikeReads(e.target, pattern, Bin(ConcatOp, Meaning(e.arg), AsTimestamp(Lit(LText("%")))), rest);
    StartsWithTokens(Emit(e.target).toks, Emit(e.arg).toks, WithCast(rest));
    assert [TOp(ConcatOp), TLit(LText("%"))] + WithCast(rest) == [TOp(ConcatOp)] + percent;
  }

  lemma EndsWithTakesCast(e: Expr, rest: seq<Token>)
    requires Readable(e) && e.TextCall? && e.fn.EndsWith? && Level(rest) < 4
    ensures Emit(e).Ok? && Parse(4, Emit(e).toks + WithCast(rest)) == Got(CastTree(e), rest)
  {
    TightTakesCast(e.arg, rest, 6);
    var tail := Emit(e.arg).toks + WithCast(rest);
    LiteralBefore(LText("%"), tail, AsTimestamp(Meaning(e.arg)), rest);
    LikeReads(e.target, [TLit(LText("%")), TOp(ConcatOp)] + tail,
              Bin(ConcatOp, Lit(LText("%")), AsTimestamp(Meaning(e.arg))), rest);
    EndsWithTokens(Emit(e.target).toks, Emit(e.arg).toks, WithCast(rest));
  }

  lemma MatchesTakesCast(e: Expr, rest: seq<Token>)
    requires Readable(e) && e.TextCall? && e.fn.Matches? && Level(rest) < 5
    ensures Emit(e).Ok? && Parse(5, Emit(e).toks + WithCast(rest)) == Got(CastTree(e), rest)
  {
    TightTakesCast(e.arg, rest, 6);
    var tail := Emit(e.arg).toks + WithCast(rest);
    ReadsAsHead(e.target, [TOp(RegexOp)] + tail);
    ClimbStep(5, Meaning(e.target), RegexOp, tail, AsTimestamp(Meaning(e.arg)), rest);
    MatchesTokens(Emit(e.target).toks, Emit(e.arg).toks, WithCast(rest));
  }

  lemma IndexTakesCast(e: Expr, rest: seq<Token>)
    requires Readable(e) && e.Index? && e.base.Ident? && Level(rest) < 5
    ensures Emit(e).Ok? && Parse(5, Emit(e).toks + WithCast(rest)) == Got(CastTree(e), rest)
  {
    var word, lit := TWord(Column(e.base.name)), LText(e.key.c.s);
    var tail := [TLit(lit)] + WithCast(rest);
    AtomReads(6, word, [TOp(ArrowTextOp)] + tail);
    LiteralTakesCast(lit, rest, 6);
    ClimbStep(5, Col(Column(e.base.name)), ArrowTextOp, tail, AsTimestamp(Lit(lit)), rest);
    AppendedTokens([word], [TOp(ArrowTextOp), TLit(lit)], WithCast(rest));
    assert [TOp(ArrowTextOp), TLit(lit)] + WithCast(rest) == [TOp(ArrowTextOp)] + tail;
  }

  lemma LiteralTakesBoth(lit: SqlLit, rest: seq<Token>)
    requires Level(rest) < 5
    ensures Parse(6, [TLit(lit)] + ([TCast(Jsonb)] + WithCast(rest))) == Got(AsTimestamp(Cast(Lit(lit), Jsonb)), rest)
  {
    AtomReads(9, TLit(lit), [TCast(Jsonb)] + WithCast(rest));
    CastStep(Lit(lit), Jsonb, WithCast(rest));
    CastStep(Cast(Lit(lit), Jsonb), TimestampTz, rest);
    Loosen(8, 6, [TLit(lit)] + ([TCast(Jsonb)] + WithCast(rest)));
  }

  lemma {:induction false} ContainmentTakesCast(base: Expr, key: Expr, literal: Expr, rest: seq<Token>)
    requires Readable(base) && Shape(base) == 9 && Level(rest) < 5
    ensures Emit(base).Ok?
    ensures Parse(5, Emit(base).toks + (JsonObjectTokens(key, literal) + WithCast(rest)))
         == Got(Bin(ContainsOp, Meaning(base), AsTimestamp(ObjectLiteral(key, literal))), rest)
  {
    var lit := LObject(ConstString(key), ConstString(literal));
    var tail := [TLit(lit)] + ([TCast(Jsonb)] + WithCast(rest));
    LiteralTakesBoth(lit, rest);
    ReadsAt(base, 6, [TOp(ContainsOp)] + tail);
    ClimbStep(5, Meaning(base), ContainsOp, tail, AsTimestamp(ObjectLiteral(key, literal)), rest);
    assert JsonObjectTokens(key, literal) + WithCast(rest) == [TOp(ContainsOp)] + tail;
  }

  /** How every readable operand is read with a cast after it. */
  lemma TreeWithCast(e: Expr, rest: seq<Token>)
    requires Readable(e) && Level(rest) < CastLevel(e)
    ensures Emit(e).Ok? && Parse(CastLevel(e), Emit(e).toks + WithCast(rest)) == Got(CastTree(e), rest)
  {
    if Shape(e) >= 8 {
      TightTakesCast(e, rest, 8);
    } else {
      match e
      case Not(_, _) => NotTakesCast(e, rest);
      case Index(_, _, _) => IndexTakesCast(e, rest);
      case TextCall(_, fn, _, _) =>
        if fn.Contains? { ContainsTakesCast(e, rest); }
        else if fn.StartsWith? { StartsWithTakesCast(e, rest); }
        else if fn.EndsWith? { EndsWithTakesCast(e, rest); }
        else { MatchesTakesCast(e, rest); }
      case Binary(_, op, left, right) =>
        if IsJsonContains(left, op, right) {
          ContainmentTakesCast(left.base, left.key, right, rest);
          AppendedTokens(Emit(left.base).toks, JsonObjectTokens(left.key, right), WithCast(rest));
        } else {
          ContainmentTakesCast(right.base, right.key, left, rest);
          AppendedTokens(Emit(right.base).toks, JsonObjectTokens(right.key, left), WithCast(rest));
        }
    }
  }

  lemma CastTreeIsMeantIff(e: Expr)
    requires Readable(e)
    ensures CastTree(e) == AsTimestamp(Meaning(e)) <==> Shape(e) >= 8
  {
  }

  // ---------- the three places where a cast is written ----------

  /** `timestamp(arg)` reads back as meant exactly when its operand is not a bare operator. */
  lemma ExplicitCastReadsBackIff(ty: Ty, arg: Expr)
    requires Readable(arg)
    ensures var e := ToTimestamp(ty, arg);
      && Emit(e).Ok? && ReadFilter(Emit(e).toks) == Some(CastTree(arg))
      && (ReadFilter(Emit(e).toks) == Some(Meaning(e)) <==> Shape(arg) >= 8)
  {
    TreeWithCast(arg, []);
    Loosen(CastLevel(arg), 0, Emit(arg).toks + WithCast([]));
    assert Emit(ToTimestamp(ty, arg)).toks == Emit(arg).toks + WithCast([]);
    CastTreeIsMeantIff(arg);
  }

  function ExtractTree(e: Expr): Sql
    requires e.TimeCall?
  {
    var field := Extract(DateFieldOf(e.get), CastTree(e.target));
    if Decremented(e.get) then Bin(SubOp, field, Lit(LInt(1))) else field
  }

  lemma ExtractWithCast(e: Expr, rest: seq<Token>)
    requires e.TimeCall? && IsDyn(e.target) && Readable(e.target)
    ensures EmitExtract(e).Ok?
    ensures Parse(9, EmitExtract(e).toks + rest) == Got(Extract(DateFieldOf(e.get), CastTree(e.target)), rest)
  {
    var close, field := [TRPar] + rest, DateFieldOf(e.get);
    TreeWithCast(e.target, close);
    var inner := Emit(e.target).toks + WithCast(close);
    Loosen(CastLevel(e.target), 0, inner);
    ExtractStep(field, inner, CastTree(e.target), rest);
    ExtractTokens([TExtract, TLPar, TField(field), TFrom], Emit(e.target).toks, rest);
  }

  lemma ExtractTokens(open: seq<Token>, t: seq<Token>, rest: seq<Token>)
    ensures var all := Then(Then(Ok(open), Ok(t)), Ok([TCast(TimestampTz)] + [TRPar]));
      all.Ok? && all.toks + rest == open + (t + WithCast([TRPar] + rest))
  {
  }

  /** A date getter on dynamic data reads back as meant exactly when its target is not a bare operator. */
  lemma GetterReadsBackIff(e: Expr)
    requires e.TimeCall? && IsDyn(e.target) && Readable(e.target)
    ensures Emit(e).Ok? && ReadFilter(Emit(e).toks) == Some(ExtractTree(e))
    ensures ReadFilter(Emit(e).toks) == Some(Meaning(e)) <==> Shape(e.target) >= 8
  {
    GetterReads(e);
    CastTreeIsMeantIff(e.target);
  }

  lemma GetterReads(e: Expr)
    requires e.TimeCall? && IsDyn(e.target) && Readable(e.target)
    ensures Emit(e).Ok? && ReadFilter(Emit(e).toks) == Some(ExtractTree(e))
  {
    if Decremented(e.get) {
      var tail := [TOp(SubOp)] + ([TLit(LInt(1))] + ([TRPar] + []));
      ExtractWithCast(e, tail);
      DecrementReads(EmitExtract(e).toks, Extract(DateFieldOf(e.get), CastTree(e.target)), []);
      DecrementTokens(EmitExtract(e).toks, []);
    } else {
      ExtractWithCast(e, []);
    }
    assert Emit(e).toks + [] == Emit(e).toks;
    Loosen(9, 0, Emit(e).toks);
  }

  function OperandTree(operand: Expr, other: Expr): Sql {
    if IsDyn(operand) && other.ty.TTimestamp? then CastTree(operand) else Meaning(operand)
  }

  /** Operands whose own operators bind tighter than a comparison: every dynamic or timestamp expression there is. */
  predicate ComparisonOperand(operand: Expr, other: Expr) {
    Readable(operand) && Shape(operand) >= 4 && !(IsDyn(operand) && other.ty.TUntyped?)
  }

  lemma OperandWithCast(operand: Expr, other: Expr, rest: seq<Token>)
    requires ComparisonOperand(operand, other) && Level(rest) < 4
    ensures Operand(operand, other).Ok?
    ensures Parse(4, Operand(operand, other).toks + rest) == Got(OperandTree(operand, other), rest)
  {
    if IsDyn(operand) && other.ty.TTimestamp? {
      TreeWithCast(operand, rest);
      Loosen(CastLevel(operand), 4, Emit(operand).toks + WithCast(rest));
      AppendedTokens(Emit(operand).toks, [TCast(TimestampTz)], rest);
    } else {
      ReadsAt(operand, 4, rest);
      assert Operand(operand, other).toks == Emit(operand).toks;
    }
  }

  lemma ImplicitCastReads(e: Expr)
    requires e.Binary? && IsComparison(e.op) && Shape(e) == 9 && !IsConcat(e)
    requires ComparisonOperand(e.left, e.right) && ComparisonOperand(e.right, e.left)
    ensures Emit(e).Ok?
    ensures ReadFilter(Emit(e).toks)
         == Some(Bin(BinaryToken(e.op).op, OperandTree(e.left, e.right), OperandTree(e.right, e.left)))
  {
    var op := BinaryToken(e.op).op;
    OperandWithCast(e.right, e.left, [TRPar]);
    var right := Operand(e.right, e.left).toks + [TRPar];
    OperandWithCast(e.left, e.right, [TOp(op)] + right);
    var inner := Operand(e.left, e.right).toks + ([TOp(op)] + right);
    ComparisonGroup(inner, OperandTree(e.left, e.right), op, right, OperandTree(e.right, e.left));
    InfixTokens(e, []);
    assert [TRPar] + [] == [TRPar];
    assert Emit(e).toks + [] == Emit(e).toks;
  }

  lemma ComparisonGroup(inner: seq<Token>, left: Sql, op: SqlOp, tail: seq<Token>, right: Sql)
    requires OpLevel(op) == 3 && Parse(4, inner) == Got(left, [TOp(op)] + tail) && Parse(4, tail) == Got(right, [TRPar])
    ensures ReadFilter([TLPar] + inner) == Some(Bin(op, left, right))
  {
    InfixStep(3, inner, left, op, tail, right, [TRPar]);
    Loosen(3, 0, inner);
    ReadableGroup(inner, Bin(op, left, right));
  }

  lemma ComparisonMeaning(e: Expr)
    requires e.Binary? && IsComparison(e.op) && Shape(e) == 9 && !IsConcat(e)
    ensures Meaning(e) == Bin(BinaryToken(e.op).op, Coerced(e.left, e.right, Meaning(e.left)),
                              Coerced(e.right, e.left, Meaning(e.right)))
  {
  }

  /** A comparison with an implicit cast on either side reads back as meant exactly when what is cast is not a bare operator. */
  lemma ImplicitCastReadsBackIff(e: Expr)
    requires e.Binary? && IsComparison(e.op) && Shape(e) == 9 && !IsConcat(e)
    requires ComparisonOperand(e.left, e.right) && ComparisonOperand(e.right, e.left)
    ensures Emit(e).Ok?
    ensures ReadFilter(Emit(e).toks) == Some(Meaning(e)) <==>
      (IsDyn(e.left) && e.right.ty.TTimestamp? ==> Shape(e.left) >= 8)
      && (IsDyn(e.right) && e.left.ty.TTimestamp? ==> Shape(e.right) >= 8)
  {
    ImplicitCastReads(e);
    ComparisonMeaning(e);
    CastTreeIsMeantIff(e.left);
    CastTreeIsMeantIff(e.right);
  }

  // ---------- a plain index after an operator of its own level ----------

  /** `target.endsWith(m["k"])` and `target.matches(m["k"])`: the operator takes the map, and the key is looked up in the result. */
  function CapturedIndex(fn: TextFn, target: Sql, name: string, key: string): Sql
    requires fn.EndsWith? || fn.Matches?
  {
    if fn.EndsWith?
    then Bin(LikeOp, target, Bin(ArrowTextOp, Bin(ConcatOp, Lit(LText("%")), Col(name)), Lit(LText(key))))
    else Bin(ArrowTextOp, Bin(RegexOp, target, Col(name)), Lit(LText(key)))
  }

  /** left op name ->> 'key', operators of one level */
  lemma IndexIsCaptured(left: Sql, op: SqlOp, name: string, key: string, rest: seq<Token>)
    requires OpLevel(op) == 5 && Level(rest) < 5
    ensures Climb(5, left, [TOp(op)] + ([TWord(name)] + ([TOp(ArrowTextOp)] + ([TLit(LText(key))] + rest))))
         == Got(Bin(ArrowTextOp, Bin(op, left, Col(name)), Lit(LText(key))), rest)
  {
    var lookup := [TOp(ArrowTextOp)] + ([TLit(LText(key))] + rest);
    AtomReads(6, TWord(name), lookup);
    AtomReads(6, TLit(LText(key)), rest);
    ClimbStep(5, left, op, [TWord(name)] + lookup, Col(name), lookup);
    ClimbStep(5, Bin(op, left, Col(name)), ArrowTextOp, [TLit(LText(key))] + rest, Lit(LText(key)), rest);
  }

  lemma IndexArgumentReads(e: Expr)
    requires e.TextCall? && (e.fn.EndsWith? || e.fn.Matches?) && Readable(e.target) && Shape(e.target) >= 5
    requires Readable(e.arg) && e.arg.Index? && e.arg.base.Ident?
    ensures Emit(e).Ok?
    ensures ReadFilter(Emit(e).toks)
         == Some(CapturedIndex(e.fn, Meaning(e.target), Column(e.arg.base.name), e.arg.key.c.s))
  {
    var name, key := Column(e.arg.base.name), e.arg.key.c.s;
    var index := [TWord(name)] + ([TOp(ArrowTextOp)] + ([TLit(LText(key))] + []));
    assert Emit(e.arg) == Ok([TWord(name)] + [TOp(ArrowTextOp), TLit(LText(key))]);
    assert Emit(e.arg).toks == index;
    assert index + [] == index;
    if e.fn.Matches? {
      IndexIsCaptured(Meaning(e.target), RegexOp, name, key, []);
      ReadsAsHead(e.target, [TOp(RegexOp)] + index);
      MatchesTokens(Emit(e.target).toks, index, []);
      assert Emit(e).toks + [] == Emit(e).toks;
      Loosen(5, 0, Emit(e).toks);
    } else {
      SuffixIsCaptured(LText("%"), name, key);
      LikeReads(e.target, [TLit(LText("%")), TOp(ConcatOp)] + index,
                Bin(ArrowTextOp, Bin(ConcatOp, Lit(LText("%")), Col(name)), Lit(LText(key))), []);
      EndsWithTokens(Emit(e.target).toks, index, []);
      assert Emit(e).toks + [] == Emit(e).toks;
      Loosen(4, 0, Emit(e).toks);
    }
  }

  lemma SuffixIsCaptured(lit: SqlLit, name: string, key: string)
    ensures Parse(5, [TLit(lit), TOp(ConcatOp)] + ([TWord(name)] + ([TOp(ArrowTextOp)] + ([TLit(LText(key))] + []))))
         == Got(Bin(ArrowTextOp, Bin(ConcatOp, Lit(lit), Col(name)), Lit(LText(key))), [])
  {
    var index := [TWord(name)] + ([TOp(ArrowTextOp)] + ([TLit(LText(key))] + []));
    IndexIsCaptured(Lit(lit), ConcatOp, name, key, []);
    AtomReads(6, TLit(lit), [TOp(ConcatOp)] + index);
    assert [TLit(lit), TOp(ConcatOp)] + index == [TLit(lit)] + ([TOp(ConcatOp)] + index);
  }

  /** `endsWith` and `matches` of a text argument read back as meant exactly when the argument is no plain index. */
  lemma TextArgumentReadsBackIff(e: Expr)
    requires e.TextCall? && (e.fn.EndsWith? || e.fn.Matches?) && Readable(e.target) && Shape(e.target) >= 5
    requires Readable(e.arg) && (Shape(e.arg) >= 6 || e.arg.Index?)
    ensures Emit(e).Ok? && (ReadFilter(Emit(e).toks) == Some(Meaning(e)) <==> Shape(e.arg) >= 6)
  {
    if Shape(e.arg) >= 6 {
      ReadBack(e);
    } else {
      IndexArgumentReads(e);
      CapturedIsNotMeant(e);
    }
  }

  lemma CapturedIsNotMeant(e: Expr)
    requires e.TextCall? && (e.fn.EndsWith? || e.fn.Matches?) && e.arg.Index? && IsStringConst(e.arg.key) && e.arg.base.Ident?
    ensures CapturedIndex(e.fn, Meaning(e.target), Column(e.arg.base.name), e.arg.key.c.s) != Meaning(e)
  {
  }
}
