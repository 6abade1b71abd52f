/** PostgreSQL reads the translator's token string back as the SQL expression that was meant. */
module Cel2SqlReadback {
  import opened Prelude
  import opened CelAst
  import opened SqlAst
  import opened Cel2SqlEmit
  import opened Cel2SqlMeaning
  import opened SqlReader

  function FieldSql(f: Field): Sql {
    match f
    case Root(name) => Col(name)
    case Key(s) => Lit(LText(s))
    case Slot(i) => Lit(LInt(i))
  }

  function PathTree(path: seq<Field>): Sql
    requires |path| > 0
  {
    if |path| == 1 then FieldSql(path[0])
    else Bin(ArrowOp, PathTree(path[..|path| - 1]), FieldSql(path[|path| - 1]))
  }

  lemma ReverseCons(f: Field, fields: seq<Field>)
    ensures Reverse([f] + fields) == Reverse(fields) + [f]
  {
    assert ([f] + fields)[1..] == fields;
  }

  /** One more field collected is one more lookup at the end of the reversed path. */
  lemma PathTreeGrows(f: Field, fields: seq<Field>)
    requires |fields| > 0
    ensures PathTree(Reverse([f] + fields)) == Bin(ArrowOp, PathTree(Reverse(fields)), FieldSql(f))
  {
    ReverseCons(f, fields);
    var path := Reverse(fields);
    assert (path + [f])[..|path|] == path;
  }

  lemma SingleFieldPath(f: Field)
    ensures PathTree(Reverse([f])) == FieldSql(f)
  {
    ReverseCons(f, []);
    assert [f] + [] == [f];
    assert Reverse([f]) == [f];
  }

  /** Reversing the collected fields gives the lookups of the chain, from its root to its leaf. */
  lemma {:induction false} ReversedPathFollowsChain(e: Expr)
    requires ConstantChain(e)
    ensures SelectFields(e).Fields?
    ensures PathTree(Reverse(SelectFields(e).fields)) == ChainMeaning(e)
  {
    match e
    case Ident(_, name, _) => SingleFieldPath(Root(name));
    case Select(_, operand, _, _) =>
      ReversedPathFollowsChain(operand);
      SelectStep(e);
    case Index(_, base, _) =>
      ReversedPathFollowsChain(base);
      IndexStep(e);
  }

  lemma SelectStep(e: Expr)
    requires e.Select? && SelectFields(e.operand).Fields?
    ensures SelectFields(e).Fields?
    ensures PathTree(Reverse(SelectFields(e).fields))
         == Bin(ArrowOp, PathTree(Reverse(SelectFields(e.operand).fields)), Lit(LText(e.field)))
  {
    PathTreeGrows(Key(e.field), SelectFields(e.operand).fields);
  }

  lemma IndexStep(e: Expr)
    requires e.Index? && SelectFields(e.base).Fields?
    requires e.key.Const? && (e.key.c.IntConst? || e.key.c.StringConst?)
    ensures SelectFields(e).Fields?
    ensures PathTree(Reverse(SelectFields(e).fields))
         == Bin(ArrowOp, PathTree(Reverse(SelectFields(e.base).fields)), KeyMeaning(e.key))
  {
    PathTreeGrows(if e.key.c.IntConst? then Slot(e.key.c.i) else Key(e.key.c.s), SelectFields(e.base).fields);
  }

  lemma {:induction false} AccessorsRead(path: seq<Field>, rest: seq<Token>)
    requires |path| > 0 && Level(rest) <= 5
    ensures Parse(5, AccessorTokens(path) + rest) == Climb(5, PathTree(path), rest)
  {
    var last := FieldToken(path[|path| - 1]);
    AtomReads(6, last, rest);
    if |path| > 1 {
      var front := path[..|path| - 1];
      var step := [TOp(ArrowOp)] + ([last] + rest);
      AccessorsRead(front, step);
      assert AccessorTokens(path) + rest == AccessorTokens(front) + step;
      ClimbStep(5, PathTree(front), ArrowOp, [last] + rest, FieldSql(path[|path| - 1]), rest);
    }
  }

  lemma {:induction false} JsonReads(front: seq<Field>, leaf: Field, rest: seq<Token>)
    requires |front| > 0
    ensures Parse(9, JsonTokens(front + [leaf]) + rest) == Got(Bin(ArrowTextOp, PathTree(front), FieldSql(leaf)), rest)
  {
    var path := front + [leaf];
    assert path[..|path| - 1] == front;
    var close := [TRPar] + rest;
    var step := [TOp(ArrowTextOp)] + ([FieldToken(leaf)] + close);
    var inner := AccessorTokens(front) + step;
    AccessorsRead(front, step);
    AtomReads(6, FieldToken(leaf), close);
    ClimbStep(5, PathTree(front), ArrowTextOp, [FieldToken(leaf)] + close, FieldSql(leaf), close);
    Loosen(5, 0, inner);
    assert JsonTokens(path) + rest == [TLPar] + inner;
    GroupStep(inner, Bin(ArrowTextOp, PathTree(front), FieldSql(leaf)), rest);
  }

  // How each form's tokens split into the pieces the reader takes one by one.

  lemma ContainsTokens(target: seq<Token>, arg: seq<Token>, rest: seq<Token>)
    ensures EmitText(Contains, Ok(target), Ok(arg)).Ok?
    ensures EmitText(Contains, Ok(target), Ok(arg)).toks + rest
         == [TPosition, TLPar] + (arg + ([TIn] + (target + ([TRPar] + ([TOp(NeOp)] + ([TLit(LInt(0))] + rest))))))
  {
  }

  lemma StartsWithTokens(target: seq<Token>, arg: seq<Token>, rest: seq<Token>)
    ensures EmitText(StartsWith, Ok(target), Ok(arg)).Ok?
    ensures EmitText(StartsWith, Ok(target), Ok(arg)).toks + rest
         == target + ([TOp(LikeOp)] + (arg + ([TOp(ConcatOp), TLit(LText("%"))] + rest)))
  {
  }

  lemma EndsWithTokens(target: seq<Token>, arg: seq<Token>, rest: seq<Token>)
    ensures EmitText(EndsWith, Ok(target), Ok(arg)).Ok?
    ensures EmitText(EndsWith, Ok(target), Ok(arg)).toks + rest
         == target + ([TOp(LikeOp)] + ([TLit(LText("%")), TOp(ConcatOp)] + (arg + rest)))
  {
  }

  lemma MatchesTokens(target: seq<Token>, arg: seq<Token>, rest: seq<Token>)
    ensures EmitText(Matches, Ok(target), Ok(arg)).Ok?
    ensures EmitText(Matches, Ok(target), Ok(arg)).toks + rest == target + ([TOp(RegexOp)] + (arg + rest))
  {
  }

  /** open body close, followed by rest */
  lemma WrappedTokens(open: seq<Token>, body: seq<Token>, close: seq<Token>, rest: seq<Token>)
    ensures Then(Then(Ok(open), Ok(body)), Ok(close)).Ok?
    ensures Then(Then(Ok(open), Ok(body)), Ok(close)).toks + rest == open + (body + (close + rest))
  {
  }

  lemma AppendedTokens(first: seq<Token>, second: seq<Token>, rest: seq<Token>)
    ensures Then(Ok(first), Ok(second)).Ok?
    ensures Then(Ok(first), Ok(second)).toks + rest == first + (second + rest)
  {
  }

  /** An operand is read whole at every level it is tight enough for. */
  lemma {:induction false} ReadsAt(e: Expr, level: nat, rest: seq<Token>)
    requires Readable(e) && level <= Shape(e) && Level(rest) < level
    ensures Emit(e).Ok?
    ensures Parse(level, Emit(e).toks + rest) == Got(Meaning(e), rest)
    decreases e, 3
  {
    Reads(e, rest);
    Loosen(Shape(e), level, Emit(e).toks + rest);
  }

  lemma {:induction false} ReadsInside(e: Expr, rest: seq<Token>)
    requires Readable(e) && Level(rest) == -1
    ensures Emit(e).Ok?
    ensures Parse(0, Emit(e).toks + rest) == Got(Meaning(e), rest)
    decreases e, 4
  {
    ReadsAt(e, 0, rest);
  }

  /** As a left operand among operators of level 5, which associate to the left. */
  lemma {:induction false} ReadsAsHead(e: Expr, rest: seq<Token>)
    requires Readable(e) && Shape(e) >= 5 && Level(rest) <= 5
    ensures Emit(e).Ok?
    ensures Parse(5, Emit(e).toks + rest) == Climb(5, Meaning(e), rest)
    decreases e, 4
  {
    if Shape(e) > 5 {
      ReadsAt(e, 6, rest);
    } else {
      ReadsClimbing(e, rest);
    }
  }

  /** The three forms that leave a level-5 operator bare: a plain index, `matches`, and containment. */
  lemma {:induction false} ReadsClimbing(e: Expr, rest: seq<Token>)
    requires Readable(e) && Shape(e) == 5 && Level(rest) <= 5
    ensures Emit(e).Ok?
    ensures Parse(5, Emit(e).toks + rest) == Climb(5, Meaning(e), rest)
    decreases e, 1
  {
    match e
    case Index(_, base, key) =>
      PlainIndexReads(Column(base.name), ConstString(key), rest);
      AppendedTokens([TWord(Column(base.name))], [TOp(ArrowTextOp), TLit(LText(ConstString(key)))], rest);
      assert [TOp(ArrowTextOp), TLit(LText(ConstString(key)))] + rest
          == [TOp(ArrowTextOp)] + ([TLit(LText(ConstString(key)))] + rest);
    case TextCall(_, _, target, arg) => MatchesReads(e, rest);
    case Binary(_, op, left, right) =>
      if IsJsonContains(left, op, right) {
        ContainmentReads(left.base, left.key, right, rest);
        AppendedTokens(Emit(left.base).toks, JsonObjectTokens(left.key, right), rest);
      } else {
        ContainmentReads(right.base, right.key, left, rest);
        AppendedTokens(Emit(right.base).toks, JsonObjectTokens(right.key, left), rest);
      }
  }

  /** target ~ arg */
  lemma {:induction false} MatchesReads(e: Expr, rest: seq<Token>)
    requires Readable(e) && e.TextCall? && e.fn.Matches? && Level(rest) <= 5
    ensures Emit(e).Ok?
    ensures Parse(5, Emit(e).toks + rest) == Climb(5, Meaning(e), rest)
    decreases e, 0
  {
    ReadsAt(e.arg, 6, rest);
    var tail := Emit(e.arg).toks + rest;
    ReadsAsHead(e.target, [TOp(RegexOp)] + tail);
    ClimbStep(5, Meaning(e.target), RegexOp, tail, Meaning(e.arg), rest);
    MatchesTokens(Emit(e.target).toks, Emit(e.arg).toks, rest);
  }

  lemma PlainIndexReads(name: string, key: string, rest: seq<Token>)
    requires Level(rest) <= 5
    ensures Parse(5, [TWord(name)] + ([TOp(ArrowTextOp)] + ([TLit(LText(key))] + rest)))
         == Climb(5, Bin(ArrowTextOp, Col(name), Lit(LText(key))), rest)
  {
    var tail := [TLit(LText(key))] + rest;
    AtomReads(6, TWord(name), [TOp(ArrowTextOp)] + tail);
    AtomReads(6, TLit(LText(key)), rest);
    ClimbStep(5, Col(name), ArrowTextOp, tail, Lit(LText(key)), rest);
  }

  lemma {:induction false} ContainmentReads(base: Expr, key: Expr, literal: Expr, rest: seq<Token>)
    requires Readable(base) && Shape(base) == 9 && Level(rest) <= 5
    ensures Emit(base).Ok?
    ensures Parse(5, Emit(base).toks + (JsonObjectTokens(key, literal) + rest))
         == Climb(5, Bin(ContainsOp, Meaning(base), ObjectLiteral(key, literal)), rest)
    decreases base, 4
  {
    var lit := LObject(ConstString(key), ConstString(literal));
    var tail := [TLit(lit)] + ([TCast(Jsonb)] + rest);
    ReadsAt(base, 6, [TOp(ContainsOp)] + tail);
    CastLiteral(lit, rest);
    ClimbStep(5, Meaning(base), ContainsOp, tail, Cast(Lit(lit), Jsonb), rest);
    assert JsonObjectTokens(key, literal) + rest == [TOp(ContainsOp)] + tail;
  }

  lemma CastLiteral(lit: SqlLit, rest: seq<Token>)
    requires Level(rest) <= 5
    ensures Parse(6, [TLit(lit)] + ([TCast(Jsonb)] + rest)) == Got(Cast(Lit(lit), Jsonb), rest)
  {
    var cast := [TCast(Jsonb)] + rest;
    AtomReads(9, TLit(lit), cast);
    CastStep(Lit(lit), Jsonb, rest);
    assert Parse(8, [TLit(lit)] + cast) == Got(Cast(Lit(lit), Jsonb), rest);
    Loosen(8, 6, [TLit(lit)] + cast);
  }

  /** The theorem for one expression in any context that cannot capture part of it. */
  lemma {:induction false} Reads(e: Expr, rest: seq<Token>)
    requires Readable(e) && Level(rest) < Shape(e)
    ensures Emit(e).Ok?
    ensures Parse(Shape(e), Emit(e).toks + rest) == Got(Meaning(e), rest)
    decreases e, 2
  {
    match e
    case Const(_, c) => AtomReads(9, Emit(e).toks[0], rest);
    case Ident(_, _, _) => AtomReads(9, Emit(e).toks[0], rest);
    case Select(_, _, _, _) => SelectReads(e, rest);
    case Not(_, arg) => NotReads(e, rest);
    case Binary(_, op, left, right) =>
      if Shape(e) == 5 { ReadsClimbing(e, rest); }
      else if IsConcat(e) { SumReads(e, rest); }
      else if op.In? { InReads(e, rest); }
      else { InfixReads(e, rest); }
    case Index(_, base, key) =>
      if base.Ident? { ReadsClimbing(e, rest); } else { IndexReads(e, rest); }
    case TextCall(_, fn, _, _) =>
      if fn.Matches? { ReadsClimbing(e, rest); }
      else if fn.Contains? { ContainsReads(e, rest); }
      else { PatternReads(e, rest); }
    case TimeCall(_, _, _, _) => TimeReads(e, rest);
    case ToTimestamp(_, arg) =>
      CastReads(arg, rest);
      assert Emit(e).toks + rest == Emit(arg).toks + ([TCast(TimestampTz)] + rest);
  }

  lemma {:induction false} NotReads(e: Expr, rest: seq<Token>)
    requires Readable(e) && e.Not? && Level(rest) < 2
    ensures Emit(e).Ok?
    ensures Parse(2, Emit(e).toks + rest) == Got(Meaning(e), rest)
    decreases e, 1
  {
    ReadsInside(e.arg, [TRPar] + rest);
    NotGroup(Emit(e.arg).toks, Meaning(e.arg), rest);
    WrappedTokens([TNot, TLPar], Emit(e.arg).toks, [TRPar], rest);
  }

  lemma NotGroup(inner: seq<Token>, tree: Sql, rest: seq<Token>)
    requires Parse(0, inner + ([TRPar] + rest)) == Got(tree, [TRPar] + rest) && Level(rest) < 2
    ensures Parse(2, [TNot, TLPar] + (inner + ([TRPar] + rest))) == Got(SNot(tree), rest)
  {
    var body := inner + ([TRPar] + rest);
    GroupStep(body, tree, rest);
    Loosen(9, 2, [TLPar] + body);
    NotStep([TLPar] + body, tree, rest);
    assert [TNot, TLPar] + body == [TNot] + ([TLPar] + body);
  }

  /** An operand followed by ::TIMESTAMP WITH TIME ZONE. */
  lemma {:induction false} CastReads(arg: Expr, rest: seq<Token>)
    requires Readable(arg) && Shape(arg) >= 8 && Level(rest) <= 8
    ensures Emit(arg).Ok?
    ensures Parse(8, Emit(arg).toks + ([TCast(TimestampTz)] + rest)) == Climb(8, Cast(Meaning(arg), TimestampTz), rest)
    decreases arg, 4
  {
    var tail := [TCast(TimestampTz)] + rest;
    CastStep(Meaning(arg), TimestampTz, rest);
    if Shape(arg) == 9 {
      ReadsAt(arg, 9, tail);
    } else {
      CastReads(arg.arg, tail);
      assert Emit(arg).toks + tail == Emit(arg.arg).toks + ([TCast(TimestampTz)] + tail);
    }
  }

  lemma SelectPath(e: Expr)
    requires e.Select? && ConstantChain(e.operand)
    ensures SelectFields(e).Fields? && SelectFields(e.operand).Fields?
    ensures Reverse(SelectFields(e).fields) == Reverse(SelectFields(e.operand).fields) + [Key(e.field)]
  {
    ReversedPathFollowsChain(e.operand);
    ReverseCons(Key(e.field), SelectFields(e.operand).fields);
  }

  lemma {:induction false} SelectReads(e: Expr, rest: seq<Token>)
    requires Readable(e) && e.Select?
    ensures Emit(e).Ok?
    ensures Parse(9, Emit(e).toks + rest) == Got(Meaning(e), rest)
    decreases e, 1
  {
    SelectPath(e);
    if IsDyn(e.operand) {
      DynSelectReads(e, rest);
    } else {
      SummaryTokens(e);
      AtomReads(9, TWord("recordsummary_" + e.field), rest);
    }
  }

  lemma DynSelectReads(e: Expr, rest: seq<Token>)
    requires e.Select? && IsDyn(e.operand) && ConstantChain(e.operand)
    ensures Emit(e).Ok?
    ensures Parse(9, Emit(e).toks + rest) == Got(Bin(ArrowTextOp, ChainMeaning(e.operand), Lit(LText(e.field))), rest)
  {
    SelectPath(e);
    ReversedPathFollowsChain(e.operand);
    JsonReads(Reverse(SelectFields(e.operand).fields), Key(e.field), rest);
    DynSelectTokens(e);
  }

  lemma DynSelectTokens(e: Expr)
    requires e.Select? && IsDyn(e.operand) && SelectFields(e).Fields?
    ensures Emit(e) == Ok(JsonTokens(Reverse(SelectFields(e).fields)))
  {
    var path := Reverse(SelectFields(e).fields);
    assert path + [] == path;
  }

  lemma SummaryTokens(e: Expr)
    requires e.Select? && IsRecordSummary(e.operand) && e.operand.Ident? && SelectFields(e).Fields?
    requires Reverse(SelectFields(e).fields) == Reverse(SelectFields(e.operand).fields) + [Key(e.field)]
    ensures Emit(e) == Ok([TWord("recordsummary_" + e.field)])
  {
    var path := Reverse(SelectFields(e).fields);
    assert path + [] == path;
    assert path[1] == Key(e.field);
  }

  lemma {:induction false} IndexReads(e: Expr, rest: seq<Token>)
    requires Readable(e) && e.Index? && !e.base.Ident?
    ensures Emit(e).Ok?
    ensures Parse(9, Emit(e).toks + rest) == Got(Meaning(e), rest)
    decreases e, 1
  {
    ReversedPathFollowsChain(e.base);
    JsonReads(Reverse(SelectFields(e.base).fields), Key(ConstString(e.key)), rest);
  }

  lemma {:induction false} OperandReads(operand: Expr, other: Expr, level: nat, rest: seq<Token>)
    requires Readable(operand) && OperandFits(operand, other, level) && level <= 8 && Level(rest) < level
    ensures Operand(operand, other).Ok?
    ensures Parse(level, Operand(operand, other).toks + rest) == Got(Coerced(operand, other, Meaning(operand)), rest)
    decreases operand, 5
  {
    if IsDyn(operand) && other.ty.TTimestamp? {
      CastReads(operand, rest);
      var toks := Emit(operand).toks + ([TCast(TimestampTz)] + rest);
      assert Operand(operand, other).toks + rest == toks;
      Loosen(8, level, toks);
    } else {
      ReadsAt(operand, level, rest);
      assert Operand(operand, other).toks == Emit(operand).toks;
    }
  }

  /** ( left op right ) */
  lemma {:induction false} InfixReads(e: Expr, rest: seq<Token>)
    requires Readable(e) && e.Binary? && !e.op.In? && Shape(e) == 9 && !IsConcat(e)
    ensures Emit(e).Ok?
    ensures Parse(9, Emit(e).toks + rest) == Got(Meaning(e), rest)
    decreases e, 1
  {
    var op := BinaryToken(e.op).op;
    var level := OpLevel(op);
    var close := [TRPar] + rest;
    OperandReads(e.right, e.left, level + 1, close);
    var right := Operand(e.right, e.left).toks + close;
    OperandReads(e.left, e.right, level + 1, [TOp(op)] + right);
    var inner := Operand(e.left, e.right).toks + ([TOp(op)] + right);
    InfixStep(level, inner, Coerced(e.left, e.right, Meaning(e.left)), op, right,
              Coerced(e.right, e.left, Meaning(e.right)), close);
    Loosen(level, 0, inner);
    GroupStep(inner, Meaning(e), rest);
    InfixTokens(e, rest);
  }

  lemma InfixTokens(e: Expr, rest: seq<Token>)
    requires e.Binary? && !IsConcat(e) && Shape(e) == 9
    requires Operand(e.left, e.right).Ok? && Operand(e.right, e.left).Ok?
    ensures Emit(e).Ok?
    ensures Emit(e).toks + rest
         == [TLPar] + (Operand(e.left, e.right).toks
                       + ([BinaryToken(e.op)] + (Operand(e.right, e.left).toks + ([TRPar] + rest))))
  {
    assert Emit(e) == EmitInfix(e.op, Operand(e.left, e.right), Operand(e.right, e.left));
  }

  lemma {:induction false} ListReads(bound: Expr, es: seq<Expr>, rest: seq<Token>)
    requires es != [] && forall i :: 0 <= i < |es| ==> es[i] < bound && Readable(es[i])
    requires Level(rest) == -1 && !Next(rest, TComma)
    ensures EmitSeq(bound, es).Ok?
    ensures List(EmitSeq(bound, es).toks + rest) == Got(Meanings(bound, es), rest)
    decreases bound, 0, |es|
  {
    if |es| == 1 {
      ReadsInside(es[0], rest);
      assert Meanings(bound, es) == [Meaning(es[0])];
    } else {
      ListReads(bound, es[1..], rest);
      assert Meanings(bound, es) == [Meaning(es[0])] + Meanings(bound, es[1..]);
      var tail := EmitSeq(bound, es[1..]).toks + rest;
      ReadsInside(es[0], [TComma] + tail);
      ListStep(Emit(es[0]).toks + ([TComma] + tail), Meaning(es[0]), tail, Meanings(bound, es[1..]), rest);
      WrappedTokens(Emit(es[0]).toks, [TComma], EmitSeq(bound, es[1..]).toks, rest);
    }
  }

  /** ( left IN ( elems ) ) */
  lemma {:induction false} InReads(e: Expr, rest: seq<Token>)
    requires Readable(e) && e.Binary? && e.op.In? && Shape(e) == 9 && !IsConcat(e)
    ensures Emit(e).Ok?
    ensures Parse(9, Emit(e).toks + rest) == Got(Meaning(e), rest)
    decreases e, 1
  {
    InOperands(e, e.left, e.right, rest);
    SameMeanings(e.right, e, e.right.elems);
    ListOperand(e.right, e.left, [TRPar] + rest);
    InfixTokens(e, rest);
  }

  lemma {:induction false} InOperands(e: Expr, left: Expr, right: Expr, rest: seq<Token>)
    requires left < e && right < e
    requires Readable(left) && OperandFits(left, right, 5)
    requires right.ListLit? && right.elems != []
    requires forall i :: 0 <= i < |right.elems| ==> Readable(right.elems[i])
    ensures Operand(left, right).Ok? && EmitSeq(right, right.elems).Ok?
    ensures Parse(9, [TLPar] + (Operand(left, right).toks + ([TIn, TLPar]
              + (EmitSeq(right, right.elems).toks + ([TRPar] + ([TRPar] + rest))))))
         == Got(InList(Coerced(left, right, Meaning(left)), Meanings(right, right.elems)), rest)
    decreases e, 0
  {
    var close := [TRPar] + rest;
    ListReads(right, right.elems, [TRPar] + close);
    var list := EmitSeq(right, right.elems).toks;
    OperandReads(left, right, 5, [TIn, TLPar] + (list + ([TRPar] + close)));
    InGroup(Operand(left, right).toks, Coerced(left, right, Meaning(left)), list, Meanings(right, right.elems), rest);
  }

  lemma InGroup(left: seq<Token>, tree: Sql, list: seq<Token>, elems: seq<Sql>, rest: seq<Token>)
    requires var tail := list + ([TRPar] + ([TRPar] + rest));
      && Parse(5, left + ([TIn, TLPar] + tail)) == Got(tree, [TIn, TLPar] + tail)
      && List(tail) == Got(elems, [TRPar] + ([TRPar] + rest))
    ensures Parse(9, [TLPar] + (left + ([TIn, TLPar] + (list + ([TRPar] + ([TRPar] + rest))))))
         == Got(InList(tree, elems), rest)
  {
    var close := [TRPar] + rest;
    var tail := list + ([TRPar] + close);
    var inner := left + ([TIn, TLPar] + tail);
    InStep(inner, tree, tail, elems, close);
    Loosen(4, 0, inner);
    GroupStep(inner, InList(tree, elems), rest);
  }

  lemma SameMeanings(a: Expr, b: Expr, es: seq<Expr>)
    requires forall i :: 0 <= i < |es| ==> es[i] < a && es[i] < b
    ensures Meanings(a, es) == Meanings(b, es)
  {
  }

  lemma ListOperand(list: Expr, other: Expr, rest: seq<Token>)
    requires list.ListLit? && !IsDyn(list) && EmitSeq(list, list.elems).Ok?
    ensures Operand(list, other).Ok?
    ensures [TIn] + (Operand(list, other).toks + rest)
         == [TIn, TLPar] + (EmitSeq(list, list.elems).toks + ([TRPar] + rest))
  {
    WrappedTokens([TLPar], EmitSeq(list, list.elems).toks, [TRPar], rest);
    assert Operand(list, other).toks == Emit(list).toks;
    var tail := EmitSeq(list, list.elems).toks + ([TRPar] + rest);
    assert [TIn] + ([TLPar] + tail) == [TIn, TLPar] + tail;
  }

  /** CONCAT's argument list keeps the operands of the additions, in order. */
  lemma {:induction false} SumLeaves(bound: Expr, e: Expr)
    requires e == bound || e < bound
    requires e == bound ==> e.Binary? && e.op.Add?
    requires ReadableSum(bound, e)
    ensures var leaves := ConcatLeaves(e);
      && leaves != []
      && (forall i :: 0 <= i < |leaves| ==> leaves[i] < bound && Readable(leaves[i]))
      && SumMeanings(bound, e) == Meanings(bound, leaves)
    decreases e
  {
    if e.Binary? && e.op.Add? {
      SumLeaves(bound, e.left);
      SumLeaves(bound, e.right);
      MeaningsAppend(bound, ConcatLeaves(e.left), ConcatLeaves(e.right));
    }
  }

  lemma MeaningsAppend(bound: Expr, a: seq<Expr>, b: seq<Expr>)
    requires forall i :: 0 <= i < |a| ==> a[i] < bound
    requires forall i :: 0 <= i < |b| ==> b[i] < bound
    ensures forall i :: 0 <= i < |a + b| ==> (a + b)[i] < bound
    ensures Meanings(bound, a + b) == Meanings(bound, a) + Meanings(bound, b)
  {
  }

  lemma {:induction false} SumReads(e: Expr, rest: seq<Token>)
    requires Readable(e) && e.Binary? && IsConcat(e)
    ensures Emit(e).Ok?
    ensures Parse(9, Emit(e).toks + rest) == Got(Meaning(e), rest)
    decreases e, 1
  {
    SumLeaves(e, e);
    var close := [TRPar] + rest;
    ListReads(e, ConcatLeaves(e), close);
    var args := EmitSeq(e, ConcatLeaves(e)).toks + close;
    ConcatStep(args, SumMeanings(e, e), rest);
    WrappedTokens([TConcat, TLPar], EmitSeq(e, ConcatLeaves(e)).toks, [TRPar], rest);
  }

  /** POSITION( arg IN target ) <> 0 */
  lemma {:induction false} ContainsReads(e: Expr, rest: seq<Token>)
    requires Readable(e) && e.TextCall? && e.fn.Contains? && Level(rest) < 3
    ensures Emit(e).Ok?
    ensures Parse(3, Emit(e).toks + rest) == Got(Meaning(e), rest)
    decreases e, 1
  {
    var zero := [TLit(LInt(0))] + rest;
    var close := [TRPar] + ([TOp(NeOp)] + zero);
    ReadsAsHead(e.target, close);
    var hay := Emit(e.target).toks + close;
    ReadsAsHead(e.arg, [TIn] + hay);
    var args := Emit(e.arg).toks + ([TIn] + hay);
    PositionStep(args, Meaning(e.arg), hay, Meaning(e.target), [TOp(NeOp)] + zero);
    var call := [TPosition, TLPar] + args;
    Loosen(9, 4, call);
    AtomReads(5, TLit(LInt(0)), rest);
    Loosen(5, 4, zero);
    InfixStep(3, call, Position(Meaning(e.arg), Meaning(e.target)), NeOp, zero, Lit(LInt(0)), rest);
    ContainsTokens(Emit(e.target).toks, Emit(e.arg).toks, rest);
  }

  /** target LIKE arg || '%', and target LIKE '%' || arg */
  lemma {:induction false} PatternReads(e: Expr, rest: seq<Token>)
    requires Readable(e) && e.TextCall? && (e.fn.StartsWith? || e.fn.EndsWith?) && Level(rest) < 4
    ensures Emit(e).Ok?
    ensures Parse(4, Emit(e).toks + rest) == Got(Meaning(e), rest)
    decreases e, 1
  {
    var pattern: seq<Token>;
    var tree: Sql;
    if e.fn.StartsWith? {
      pattern, tree := PrefixPattern(e.arg, rest);
    } else {
      pattern, tree := SuffixPattern(e.arg, rest);
    }
    ReadsAsHead(e.target, [TOp(LikeOp)] + pattern);
    var ts := Emit(e.target).toks + ([TOp(LikeOp)] + pattern);
    InfixStep(4, ts, Meaning(e.target), LikeOp, pattern, tree, rest);
    if e.fn.StartsWith? {
      StartsWithTokens(Emit(e.target).toks, Emit(e.arg).toks, rest);
    } else {
      EndsWithTokens(Emit(e.target).toks, Emit(e.arg).toks, rest);
    }
  }

  lemma {:induction false} PrefixPattern(arg: Expr, rest: seq<Token>) returns (pattern: seq<Token>, tree: Sql)
    requires Readable(arg) && Shape(arg) >= 5 && Level(rest) < 5
    ensures Emit(arg).Ok?
    ensures pattern == Emit(arg).toks + ([TOp(ConcatOp), TLit(LText("%"))] + rest)
    ensures tree == Bin(ConcatOp, Meaning(arg), Lit(LText("%")))
    ensures Parse(5, pattern) == Got(tree, rest)
    decreases arg, 5
  {
    var percent := [TLit(LText("%"))] + rest;
    AtomReads(6, TLit(LText("%")), rest);
    ReadsAsHead(arg, [TOp(ConcatOp)] + percent);
    ClimbStep(5, Meaning(arg), ConcatOp, percent, Lit(LText("%")), rest);
    pattern := Emit(arg).toks + ([TOp(ConcatOp), TLit(LText("%"))] + rest);
    assert [TOp(ConcatOp), TLit(LText("%"))] + rest == [TOp(ConcatOp)] + percent;
    tree := Bin(ConcatOp, Meaning(arg), Lit(LText("%")));
  }

  lemma {:induction false} SuffixPattern(arg: Expr, rest: seq<Token>) returns (pattern: seq<Token>, tree: Sql)
    requires Readable(arg) && Shape(arg) >= 6 && Level(rest) < 5
    ensures Emit(arg).Ok?
    ensures pattern == [TLit(LText("%")), TOp(ConcatOp)] + (Emit(arg).toks + rest)
    ensures tree == Bin(ConcatOp, Lit(LText("%")), Meaning(arg))
    ensures Parse(5, pattern) == Got(tree, rest)
    decreases arg, 5
  {
    ReadsAt(arg, 6, rest);
    pattern := [TLit(LText("%")), TOp(ConcatOp)] + (Emit(arg).toks + rest);
    LiteralBefore(LText("%"), Emit(arg).toks + rest, Meaning(arg), rest);
    tree := Bin(ConcatOp, Lit(LText("%")), Meaning(arg));
  }

  lemma LiteralBefore(lit: SqlLit, tail: seq<Token>, tree: Sql, rest: seq<Token>)
    requires Parse(6, tail) == Got(tree, rest) && Level(rest) < 5
    ensures Parse(5, [TLit(lit), TOp(ConcatOp)] + tail) == Got(Bin(ConcatOp, Lit(lit), tree), rest)
  {
    AtomReads(6, TLit(lit), [TOp(ConcatOp)] + tail);
    ClimbStep(5, Lit(lit), ConcatOp, tail, tree, rest);
    assert [TLit(lit), TOp(ConcatOp)] + tail == [TLit(lit)] + ([TOp(ConcatOp)] + tail);
  }

  lemma {:induction false} TimeReads(e: Expr, rest: seq<Token>)
    requires Readable(e) && e.TimeCall?
    ensures Emit(e).Ok?
    ensures Parse(9, Emit(e).toks + rest) == Got(Meaning(e), rest)
    decreases e, 1
  {
    if Decremented(e.get) {
      var tail := [TOp(SubOp)] + ([TLit(LInt(1))] + ([TRPar] + rest));
      ExtractReads(e, tail);
      DecrementReads(EmitExtract(e).toks, Meaning(e).left, rest);
      DecrementTokens(EmitExtract(e).toks, rest);
    } else {
      ExtractReads(e, rest);
    }
  }

  lemma DecrementTokens(call: seq<Token>, rest: seq<Token>)
    ensures var all := Then(Then(Ok([TLPar]), Ok(call)), Ok([TOp(SubOp), TLit(LInt(1)), TRPar]));
      all.Ok? && all.toks + rest == [TLPar] + (call + ([TOp(SubOp)] + ([TLit(LInt(1))] + ([TRPar] + rest))))
  {
    WrappedTokens([TLPar], call, [TOp(SubOp), TLit(LInt(1)), TRPar], rest);
    assert [TOp(SubOp), TLit(LInt(1)), TRPar] + rest == [TOp(SubOp)] + ([TLit(LInt(1))] + ([TRPar] + rest));
  }

  /** ( call - 1 ) */
  lemma DecrementReads(call: seq<Token>, tree: Sql, rest: seq<Token>)
    requires var tail := [TOp(SubOp)] + ([TLit(LInt(1))] + ([TRPar] + rest));
      Parse(9, call + tail) == Got(tree, tail)
    ensures Parse(9, [TLPar] + (call + ([TOp(SubOp)] + ([TLit(LInt(1))] + ([TRPar] + rest)))))
         == Got(Bin(SubOp, tree, Lit(LInt(1))), rest)
  {
    var close := [TRPar] + rest;
    var one := [TLit(LInt(1))] + close;
    var inner := call + ([TOp(SubOp)] + one);
    Loosen(9, 7, inner);
    AtomReads(7, TLit(LInt(1)), close);
    InfixStep(6, inner, tree, SubOp, one, Lit(LInt(1)), close);
    Loosen(6, 0, inner);
    GroupStep(inner, Bin(SubOp, tree, Lit(LInt(1))), rest);
  }

  lemma {:induction false} ExtractReads(e: Expr, rest: seq<Token>)
    requires Readable(e) && e.TimeCall?
    ensures EmitExtract(e).Ok?
    ensures Parse(9, EmitExtract(e).toks + rest)
         == Got(Extract(DateFieldOf(e.get), if IsDyn(e.target) then Cast(Meaning(e.target), TimestampTz)
                                            else Meaning(e.target)), rest)
    decreases e, 0
  {
    var close := [TRPar] + rest;
    var field := DateFieldOf(e.get);
    if IsDyn(e.target) {
      CastReads(e.target, close);
      ExtractCast(field, Emit(e.target).toks, Meaning(e.target), rest);
      WrappedTokens([TExtract, TLPar, TField(field), TFrom], Emit(e.target).toks, [TCast(TimestampTz), TRPar], rest);
      assert [TCast(TimestampTz)] + [TRPar] == [TCast(TimestampTz), TRPar];
    } else {
      ReadsInside(e.target, close);
      ExtractStep(field, Emit(e.target).toks + close, Meaning(e.target), rest);
      WrappedTokens([TExtract, TLPar, TField(field), TFrom], Emit(e.target).toks, [TRPar], rest);
      assert [] + [TRPar] == [TRPar];
    }
  }

  lemma ExtractCast(field: DateField, inner: seq<Token>, tree: Sql, rest: seq<Token>)
    requires var close := [TRPar] + rest;
      Parse(8, inner + ([TCast(TimestampTz)] + close)) == Climb(8, Cast(tree, TimestampTz), close)
    ensures Parse(9, [TExtract, TLPar, TField(field), TFrom] + (inner + ([TCast(TimestampTz), TRPar] + rest)))
         == Got(Extract(field, Cast(tree, TimestampTz)), rest)
  {
    var close := [TRPar] + rest;
    var arg := inner + ([TCast(TimestampTz)] + close);
    Loosen(8, 0, arg);
    ExtractStep(field, arg, Cast(tree, TimestampTz), rest);
    assert [TCast(TimestampTz), TRPar] + rest == [TCast(TimestampTz)] + close;
  }

  /**
   Printer and reader undo each other: for every readable expression, the whole token string the
   translator leaves in the buffer reads back as exactly the SQL expression it stands for.
   */
  lemma ReadBack(e: Expr)
    requires Readable(e)
    ensures Emit(e).Ok?
    ensures ReadFilter(Emit(e).toks) == Some(Meaning(e))
  {
    ReadsInside(e, []);
    assert Emit(e).toks + [] == Emit(e).toks;
  }
}
