/** For every infix operator: its tokens read back as meant exactly when its operands are tight enough. */
module Cel2SqlOperators {
  import opened Prelude
  import opened CelAst
  import opened SqlAst
  import opened Cel2SqlEmit
  import opened Cel2SqlMeaning
  import opened SqlReader
  import opened SqlBalance
  import opened Cel2SqlReadback
  import opened Cel2SqlTheorems
  import opened Cel2SqlCasts

  // ---------- the outermost operator of a reading ----------

  function RootLevel(q: Sql): nat {
    match q
    case Bin(op, _, _) => OpLevel(op)
    case InList(_, _) => 4
    case SNot(_) => 2
    case _ => 9
  }

  /** The text cannot be read, or its outermost operator is at most this tight. */
  predicate LooseOrFailed(r: Read<Sql>, bound: nat) { r.Fail? || RootLevel(r.tree) <= bound }

  lemma {:induction false} ClimbRoot(level: nat, left: Sql, ts: seq<Token>)
    requires level in {0, 1, 5, 6, 7} && (RootLevel(left) <= level || Level(ts) == level)
    ensures LooseOrFailed(Climb(level, left, ts), level)
    decreases |ts|
  {
    if Level(ts) == level && ts[0].TOp? {
      var right := Parse(level + 1, ts[1..]);
      if right.Got? { ClimbRoot(level, Bin(ts[0].op, left, right.tree), right.rest); }
    }
  }

  /** Looser levels only put looser operators on top. */
  lemma {:induction false} RootStays(level: nat, ts: seq<Token>, bound: nat)
    requires level <= bound + 1 && 2 <= bound <= 5 && LooseOrFailed(Parse(level, ts), bound)
    ensures LooseOrFailed(Parse(0, ts), bound)
    decreases level
  {
    if level > 0 {
      StepDown(level - 1, ts, bound);
      RootStays(level - 1, ts, bound);
    }
  }

  lemma StepDown(level: nat, ts: seq<Token>, bound: nat)
    requires level <= bound && 2 <= bound <= 5 && LooseOrFailed(Parse(level + 1, ts), bound)
    ensures LooseOrFailed(Parse(level, ts), bound)
  {
    var left := Parse(level + 1, ts);
    if left.Got? && level in {0, 1, 5} && Level(left.rest) == level { ClimbRoot(level, left.tree, left.rest); }
  }

  /** A reader of tight operands that stops before a comparison, LIKE or an operator of level 5 leaves it on top. */
  lemma StopsLoosely(level: nat, ts: seq<Token>)
    requires level <= 8 && Parse(level, ts).Got?
    requires var m := Level(Parse(level, ts).rest); 3 <= m <= 5 && m < level
    ensures LooseOrFailed(Parse(0, ts), 5)
  {
    var left := Parse(level, ts);
    var m := Level(left.rest);
    Loosen(level, m + 1, ts);
    if m == 5 { ClimbRoot(5, left.tree, left.rest); }
    RootStays(m, ts, 5);
  }

  lemma NotOnTop(ts: seq<Token>)
    requires Next(ts, TNot)
    ensures LooseOrFailed(Parse(0, ts), 2)
  {
    RootStays(2, ts, 2);
  }

  // ---------- where a bare operand stops ----------

  /** A reader of operands tighter than level 5 stops inside a bare operand. */
  lemma {:induction false} TightStops(e: Expr, more: seq<Token>, level: nat)
    requires Readable(e) && 3 <= Shape(e) <= 5 && 6 <= level <= 8
    ensures Emit(e).Ok?
    ensures var r := Parse(level, Emit(e).toks + more); r.Got? && 3 <= Level(r.rest) <= 5
    decreases e, 1
  {
    match e
    case Index(_, base, key) =>
      var word, lookup := TWord(Column(base.name)), [TOp(ArrowTextOp), TLit(LText(ConstString(key)))];
      AppendedTokens([word], lookup, more);
      AtomReads(level, word, lookup + more);
    case TextCall(_, _, _, _) => TextStops(e, more, level);
    case Binary(_, op, left, right) =>
      if IsJsonContains(left, op, right) {
        BaseStops(left.base, left.key, right, more, level);
      } else {
        BaseStops(right.base, right.key, left, more, level);
      }
  }

  lemma {:induction false} TextStops(e: Expr, more: seq<Token>, level: nat)
    requires Readable(e) && e.TextCall? && 6 <= level <= 8
    ensures Emit(e).Ok?
    ensures var r := Parse(level, Emit(e).toks + more); r.Got? && 3 <= Level(r.rest) <= 5
    decreases e, 0
  {
    if e.fn.Contains? {
      ContainsStops(e, more);
      Loosen(9, level, Emit(e).toks + more);
    } else {
      var tail := AfterTarget(e, more);
      if Shape(e.target) >= 8 { ReadsAt(e.target, level, tail); } else { TightStops(e.target, tail, level); }
    }
  }

  lemma BaseStops(base: Expr, key: Expr, literal: Expr, more: seq<Token>, level: nat)
    requires Readable(base) && Shape(base) == 9 && 6 <= level <= 8
    ensures Emit(base).Ok?
    ensures var r := Parse(level, Then(Emit(base), Ok(JsonObjectTokens(key, literal))).toks + more);
      r.Got? && 3 <= Level(r.rest) <= 5
  {
    var tail := JsonObjectTokens(key, literal) + more;
    ReadsAt(base, level, tail);
    AppendedTokens(Emit(base).toks, JsonObjectTokens(key, literal), more);
  }

  /** A text function other than `contains` writes its target first. */
  lemma AfterTarget(e: Expr, more: seq<Token>) returns (tail: seq<Token>)
    requires Readable(e) && e.TextCall? && !e.fn.Contains?
    ensures Emit(e).Ok? && Emit(e.target).Ok? && Emit(e).toks + more == Emit(e.target).toks + tail
    ensures tail != [] && (tail[0] == TOp(LikeOp) || tail[0] == TOp(RegexOp))
  {
    ReadsInside(e.target, []);
    ReadsInside(e.arg, []);
    match e.fn
    case StartsWith =>
      StartsWithTokens(Emit(e.target).toks, Emit(e.arg).toks, more);
      tail := [TOp(LikeOp)] + (Emit(e.arg).toks + ([TOp(ConcatOp), TLit(LText("%"))] + more));
    case EndsWith =>
      EndsWithTokens(Emit(e.target).toks, Emit(e.arg).toks, more);
      tail := [TOp(LikeOp)] + ([TLit(LText("%")), TOp(ConcatOp)] + (Emit(e.arg).toks + more));
    case Matches =>
      MatchesTokens(Emit(e.target).toks, Emit(e.arg).toks, more);
      tail := [TOp(RegexOp)] + (Emit(e.arg).toks + more);
  }

  // ---------- arithmetic ----------

  predicate IsArithmetic(op: BinOp) { op.Add? || op.Sub? || op.Mul? || op.Div? || op.Mod? }

  /** Readable operands of an operator written in infix form. */
  predicate InfixOperands(e: Expr) {
    && e.Binary? && !e.op.In? && !IsConcat(e) && Shape(e) == 9
    && Readable(e.left) && Readable(e.right)
    && !(IsDyn(e.left) && e.right.ty.TUntyped?) && !(IsDyn(e.right) && e.left.ty.TUntyped?)
  }

  function CastToks(operand: Expr, other: Expr): seq<Token> {
    if IsDyn(operand) && other.ty.TTimestamp? then [TCast(TimestampTz)] else []
  }

  lemma OperandTokens(operand: Expr, other: Expr, more: seq<Token>)
    requires Readable(operand) && !(IsDyn(operand) && other.ty.TUntyped?)
    ensures Emit(operand).Ok? && Operand(operand, other).Ok?
    ensures Operand(operand, other).toks + more == Emit(operand).toks + (CastToks(operand, other) + more)
  {
    ReadsInside(operand, []);
    AppendedTokens(Emit(operand).toks, CastToks(operand, other), more);
  }

  lemma OperandIsBalanced(operand: Expr, other: Expr)
    requires Readable(operand) && !(IsDyn(operand) && other.ty.TUntyped?)
    ensures Operand(operand, other).Ok? && Balanced(Operand(operand, other).toks)
  {
    OperandTokens(operand, other, []);
    ReadBack(operand);
    ReadIsBalanced(Emit(operand).toks);
    assert Operand(operand, other).toks == Emit(operand).toks + CastToks(operand, other);
    if CastToks(operand, other) == [] {
      assert Emit(operand).toks + [] == Emit(operand).toks;
    } else {
      NeutralIsBalanced(TCast(TimestampTz));
      BalancedAppends(Emit(operand).toks, CastToks(operand, other));
    }
  }

  /** The text between the parentheses of an infix form. */
  function Body(e: Expr): seq<Token>
    requires e.Binary? && Operand(e.left, e.right).Ok? && Operand(e.right, e.left).Ok?
  {
    Operand(e.left, e.right).toks + ([BinaryToken(e.op)] + Operand(e.right, e.left).toks)
  }

  lemma BodyIsBalanced(e: Expr)
    requires InfixOperands(e)
    ensures Operand(e.left, e.right).Ok? && Operand(e.right, e.left).Ok? && Balanced(Body(e))
    ensures Emit(e).Ok? && Emit(e).toks == [TLPar] + (Body(e) + [TRPar])
  {
    OperandIsBalanced(e.left, e.right);
    OperandIsBalanced(e.right, e.left);
    NeutralIsBalanced(BinaryToken(e.op));
    BalancedAppends([BinaryToken(e.op)], Operand(e.right, e.left).toks);
    BalancedAppends(Operand(e.left, e.right).toks, [BinaryToken(e.op)] + Operand(e.right, e.left).toks);
    InfixTokens(e, []);
    assert Emit(e).toks + [] == Emit(e).toks;
    assert [TRPar] + [] == [TRPar];
    assert Operand(e.left, e.right).toks + ([BinaryToken(e.op)] + (Operand(e.right, e.left).toks + [TRPar])) == Body(e) + [TRPar];
  }

  /** A group read from its contents, whatever they are. */
  lemma GroupRoot(body: seq<Token>, bound: nat)
    requires Balanced(body) && LooseOrFailed(Parse(0, body + [TRPar]), bound)
    ensures ReadFilter([TLPar] + (body + [TRPar])) == None || RootLevel(ReadFilter([TLPar] + (body + [TRPar])).value) <= bound
  {
    var ts := body + [TRPar];
    var r := Parse(0, ts);
    var all := [TLPar] + ts;
    assert all[1..] == ts;
    if r.Fail? {
      UnreadableGroup(ts);
    } else {
      ParseTakes(0, ts);
      if Next(r.rest, TRPar) {
        ClosesAtTheEnd(body, r.rest);
        ReadableGroup(ts, r.tree);
      } else {
        FailsLoosely(9, 0, all);
      }
    }
  }

  lemma LooseLeft(e: Expr)
    requires InfixOperands(e) && IsArithmetic(e.op) && Shape(e.left) <= 5
    ensures Operand(e.left, e.right).Ok? && Operand(e.right, e.left).Ok?
    ensures LooseOrFailed(Parse(0, Body(e) + [TRPar]), 5)
  {
    BodyIsBalanced(e);
    var more := [BinaryToken(e.op)] + Operand(e.right, e.left).toks + [TRPar];
    OperandTokens(e.left, e.right, more);
    var inner := Body(e) + [TRPar];
    assert inner == Operand(e.left, e.right).toks + more;
    if e.left.Not? {
      NotFirst(e.left, CastToks(e.left, e.right) + more);
      NotOnTop(inner);
      assert LooseOrFailed(Parse(0, inner), 5);
    } else {
      TightStops(e.left, CastToks(e.left, e.right) + more, 8);
      StopsLoosely(8, inner);
    }
  }

  lemma NotFirst(e: Expr, more: seq<Token>)
    requires e.Not? && Readable(e)
    ensures Emit(e).Ok? && Next(Emit(e).toks + more, TNot)
  {
    ReadsInside(e.arg, []);
  }

  /** left op right, where the reader of the right operand fails or stops inside it */
  lemma RightStops(ts: seq<Token>, left: Sql, op: SqlOp, tail: seq<Token>)
    requires 6 <= OpLevel(op) <= 7 && Parse(OpLevel(op) + 1, ts) == Got(left, [TOp(op)] + tail)
    requires var r := Parse(OpLevel(op) + 1, tail); r.Got? ==> 3 <= Level(r.rest) <= 5
    ensures LooseOrFailed(Parse(0, ts), 5)
  {
    var right := Parse(OpLevel(op) + 1, tail);
    if right.Fail? {
      RightFails(ts, left, op, tail);
    } else {
      InfixStep(OpLevel(op), ts, left, op, tail, right.tree, right.rest);
      StopsLoosely(OpLevel(op), ts);
    }
  }

  lemma BareOperandStops(operand: Expr, other: Expr, more: seq<Token>, level: nat)
    requires Readable(operand) && Shape(operand) <= 5 && !(IsDyn(operand) && other.ty.TUntyped?) && 7 <= level <= 8
    ensures Operand(operand, other).Ok?
    ensures var r := Parse(level, Operand(operand, other).toks + more); r.Got? ==> 3 <= Level(r.rest) <= 5
  {
    OperandTokens(operand, other, more);
    if operand.Not? {
      NotFirst(operand, CastToks(operand, other) + more);
      NotIsLoose(level, Emit(operand).toks + (CastToks(operand, other) + more));
    } else {
      TightStops(operand, CastToks(operand, other) + more, level);
    }
  }

  lemma LooseRight(e: Expr)
    requires InfixOperands(e) && IsArithmetic(e.op) && Shape(e.left) >= 8 && Shape(e.right) <= 5
    ensures Operand(e.left, e.right).Ok? && Operand(e.right, e.left).Ok?
    ensures LooseOrFailed(Parse(0, Body(e) + [TRPar]), 5)
  {
    var op := BinaryToken(e.op).op;
    BareOperandStops(e.right, e.left, [TRPar], OpLevel(op) + 1);
    var tail := Operand(e.right, e.left).toks + [TRPar];
    OperandReads(e.left, e.right, OpLevel(op) + 1, [TOp(op)] + tail);
    BodyEnds(Operand(e.left, e.right).toks, [TOp(op)], Operand(e.right, e.left).toks, [TRPar]);
    RightStops(Body(e) + [TRPar], Coerced(e.left, e.right, Meaning(e.left)), op, tail);
  }

  lemma BodyEnds(a: seq<Token>, op: seq<Token>, b: seq<Token>, close: seq<Token>)
    ensures a + (op + b) + close == a + (op + (b + close))
  {
  }

  lemma RightFails(ts: seq<Token>, left: Sql, op: SqlOp, tail: seq<Token>)
    requires 6 <= OpLevel(op) <= 7 && Parse(OpLevel(op) + 1, ts) == Got(left, [TOp(op)] + tail) && Parse(OpLevel(op) + 1, tail).Fail?
    ensures Parse(0, ts).Fail?
  {
    var after := [TOp(op)] + tail;
    assert after[1..] == tail && Level(after) == OpLevel(op);
    if Next(ts, TNot) { NotIsLoose(OpLevel(op) + 1, ts); }
    FailsLoosely(OpLevel(op), 0, ts);
  }

  /** An arithmetic operator of readable operands reads back as meant exactly when neither is a bare operator. */
  lemma ArithmeticReadsBackIff(e: Expr)
    requires InfixOperands(e) && IsArithmetic(e.op)
    ensures Emit(e).Ok? && (ReadFilter(Emit(e).toks) == Some(Meaning(e)) <==> Readable(e))
  {
    BodyIsBalanced(e);
    if Readable(e) {
      ReadBack(e);
    } else {
      if Shape(e.left) <= 5 { LooseLeft(e); } else { LooseRight(e); }
      GroupRoot(Body(e), 5);
      ArithmeticRoot(e);
    }
  }

  lemma ArithmeticRoot(e: Expr)
    requires InfixOperands(e) && IsArithmetic(e.op)
    ensures RootLevel(Meaning(e)) >= 6
  {
  }

  // ---------- membership ----------

  /** Readable operands of `in`: an operand and a list of readable elements. */
  predicate InOperandsOk(e: Expr) {
    && e.Binary? && e.op.In? && Readable(e.left) && e.right.ListLit? && e.right.ty.TList?
    && forall i :: 0 <= i < |e.right.elems| ==> Readable(e.right.elems[i])
  }

  function ListToks(right: Expr): seq<Token>
    requires right.ListLit? && EmitSeq(right, right.elems).Ok?
  {
    [TLPar] + EmitSeq(right, right.elems).toks + [TRPar]
  }

  lemma ListIsBalanced(right: Expr)
    requires right.ListLit? && forall i :: 0 <= i < |right.elems| ==> Readable(right.elems[i])
    ensures EmitSeq(right, right.elems).Ok? && Balanced(ListToks(right))
  {
    if right.elems == [] {
      TakesNothing([]);
      assert Used([], []) == [];
    } else {
      ListReads(right, right.elems, [TRPar]);
      var list := EmitSeq(right, right.elems).toks;
      ListTakes(list + [TRPar]);
      assert Used(list + [TRPar], [TRPar]) == list;
    }
    GroupIsBalanced(EmitSeq(right, right.elems).toks);
  }

  function InBody(e: Expr): seq<Token>
    requires e.Binary? && Emit(e.left).Ok? && e.right.ListLit? && EmitSeq(e.right, e.right.elems).Ok?
  {
    Emit(e.left).toks + ([TIn] + ListToks(e.right))
  }

  lemma InBodyIsBalanced(e: Expr)
    requires InOperandsOk(e)
    ensures Emit(e.left).Ok? && EmitSeq(e.right, e.right.elems).Ok? && Balanced(InBody(e))
    ensures Emit(e).Ok? && Emit(e).toks == [TLPar] + (InBody(e) + [TRPar])
  {
    ReadBack(e.left);
    ReadIsBalanced(Emit(e.left).toks);
    ListIsBalanced(e.right);
    NeutralIsBalanced(TIn);
    BalancedAppends([TIn], ListToks(e.right));
    BalancedAppends(Emit(e.left).toks, [TIn] + ListToks(e.right));
    InTokens(e);
  }

  lemma InTokens(e: Expr)
    requires InOperandsOk(e) && Emit(e.left).Ok? && EmitSeq(e.right, e.right.elems).Ok?
    ensures Emit(e).Ok? && Emit(e).toks == [TLPar] + (InBody(e) + [TRPar])
  {
    assert Emit(e.right) == Ok(ListToks(e.right));
    assert Operand(e.left, e.right) == Ok(Emit(e.left).toks) && Operand(e.right, e.left) == Ok(ListToks(e.right));
    assert Emit(e) == EmitInfix(In, Operand(e.left, e.right), Operand(e.right, e.left));
  }

  /** `x LIKE pattern IN (...)` is a syntax error: LIKE and IN do not associate. */
  lemma LikeThenInFails(e: Expr, more: seq<Token>)
    requires Readable(e) && e.TextCall? && Shape(e) == 4 && Level(more) == 4
    ensures Emit(e).Ok? && Parse(0, Emit(e).toks + more).Fail?
  {
    var pattern, tree;
    if e.fn.StartsWith? {
      pattern, tree := PrefixPattern(e.arg, more);
      ReadsInside(e.target, []);
      StartsWithTokens(Emit(e.target).toks, Emit(e.arg).toks, more);
    } else {
      pattern, tree := SuffixPattern(e.arg, more);
      ReadsInside(e.target, []);
      EndsWithTokens(Emit(e.target).toks, Emit(e.arg).toks, more);
    }
    var ts := Emit(e.target).toks + ([TOp(LikeOp)] + pattern);
    ReadsAsHead(e.target, [TOp(LikeOp)] + pattern);
    LikeTwiceFails(ts, Meaning(e.target), pattern);
  }

  lemma LikeTwiceFails(ts: seq<Token>, left: Sql, pattern: seq<Token>)
    requires Parse(5, ts) == Got(left, [TOp(LikeOp)] + pattern)
    requires Parse(5, pattern).Got? && Level(Parse(5, pattern).rest) == 4
    ensures Parse(0, ts).Fail?
  {
    var after := [TOp(LikeOp)] + pattern;
    assert after[1..] == pattern && Level(after) == 4;
    if Next(ts, TNot) { NotIsLoose(5, ts); }
    FailsLoosely(4, 0, ts);
  }

  /** A negation or a bare `contains` before IN keeps the outermost place. */
  lemma LooseBeforeIn(e: Expr, more: seq<Token>)
    requires Readable(e) && Shape(e) <= 3
    ensures Emit(e).Ok? && LooseOrFailed(Parse(0, Emit(e).toks + more), 3)
  {
    if e.Not? {
      NotFirst(e, more);
      NotOnTop(Emit(e).toks + more);
    } else {
      ContainsStops(e, more);
      assert Level([TOp(NeOp)] + ([TLit(LInt(0))] + more)) == 3;
      RootStays(3, Emit(e).toks + more, 3);
    }
  }

  lemma EmptyListFails(ts: seq<Token>, left: Sql, rest: seq<Token>)
    requires Parse(5, ts) == Got(left, [TIn, TLPar, TRPar] + rest)
    ensures Parse(0, ts).Fail?
  {
    var after := [TIn, TLPar, TRPar] + rest;
    var inside := after[2..];
    assert inside[0] == TRPar && after[1..][0] == TLPar && Level(after) == 4;
    assert Parse(9, inside).Fail?;
    FailsLoosely(9, 0, inside);
    assert List(inside).Fail?;
    assert Once(4, left, after).Fail?;
    if Next(ts, TNot) { NotIsLoose(5, ts); }
    FailsLoosely(4, 0, ts);
  }

  lemma NoListFails(e: Expr)
    requires InOperandsOk(e) && Shape(e.left) >= 5 && e.right.elems == []
    ensures Emit(e.left).Ok? && EmitSeq(e.right, e.right.elems).Ok? && Parse(0, InBody(e) + [TRPar]).Fail?
  {
    var after := [TIn, TLPar, TRPar] + [TRPar];
    ReadsAsHead(e.left, after);
    assert Climb(5, Meaning(e.left), after) == Got(Meaning(e.left), after);
    EmptyListFails(Emit(e.left).toks + after, Meaning(e.left), [TRPar]);
    assert InBody(e) + [TRPar] == Emit(e.left).toks + after;
  }

  /** `in` of readable operands reads back as meant exactly when the left one is tight and the list is not empty. */
  lemma InReadsBackIff(e: Expr)
    requires InOperandsOk(e)
    ensures Emit(e).Ok? && (ReadFilter(Emit(e).toks) == Some(Meaning(e)) <==> Readable(e))
  {
    InBodyIsBalanced(e);
    if Readable(e) {
      ReadBack(e);
    } else {
      InIsMisread(e);
      GroupRoot(InBody(e), 3);
      InMeansMembership(e);
    }
  }

  lemma InMeansMembership(e: Expr)
    requires InOperandsOk(e)
    ensures Meaning(e).InList?
  {
  }

  lemma InIsMisread(e: Expr)
    requires InOperandsOk(e) && (Shape(e.left) <= 4 || e.right.elems == [])
    ensures Emit(e.left).Ok? && EmitSeq(e.right, e.right.elems).Ok?
    ensures LooseOrFailed(Parse(0, InBody(e) + [TRPar]), 3)
  {
    InBodyIsBalanced(e);
    var more := [TIn] + ListToks(e.right) + [TRPar];
    assert InBody(e) + [TRPar] == Emit(e.left).toks + more;
    if Shape(e.left) <= 3 {
      LooseBeforeIn(e.left, more);
    } else if Shape(e.left) == 4 {
      LikeThenInFails(e.left, more);
    } else {
      NoListFails(e);
    }
  }

  // ---------- all of them ----------

  /** A cast is written only where a comparison or arithmetic has it, and not after a Boolean. */
  predicate CastIsTyped(e: Expr)
    requires e.Binary?
  {
    || (Uncast(e.left, e.right) && Uncast(e.right, e.left))
    || IsArithmetic(e.op)
    || (IsComparison(e.op) && Shape(e.left) >= 4 && Shape(e.right) >= 4)
  }

  lemma LogicIsReadable(e: Expr)
    requires InfixOperands(e) && (e.op.And? || e.op.Or?) && Uncast(e.left, e.right) && Uncast(e.right, e.left)
    ensures Readable(e)
  {
  }

  lemma ComparisonReadableIff(e: Expr)
    requires InfixOperands(e) && IsComparison(e.op)
    ensures Readable(e) <==> OperandFits(e.left, e.right, 4) && OperandFits(e.right, e.left, 4)
  {
  }

  /** The tokens of an infix operator with readable operands read back as meant if and only if it is readable itself. */
  lemma InfixReadsBackIff(e: Expr)
    requires (InfixOperands(e) && CastIsTyped(e)) || InOperandsOk(e)
    ensures Emit(e).Ok? && (ReadFilter(Emit(e).toks) == Some(Meaning(e)) <==> Readable(e))
  {
    if InOperandsOk(e) {
      InReadsBackIff(e);
    } else if IsArithmetic(e.op) {
      ArithmeticReadsBackIff(e);
    } else if IsComparison(e.op) {
      ComparisonReadableIff(e);
      if Uncast(e.left, e.right) && Uncast(e.right, e.left) {
        ComparisonReadsBackIff(e);
      } else {
        ImplicitCastReadsBackIff(e);
      }
    } else {
      LogicIsReadable(e);
      ReadBack(e);
    }
  }
}
