/** The translator's correctness, end to end, and exactly where it stops. */
module Cel2SqlTheorems {
  import opened Prelude
  import opened CelAst
  import opened SqlAst
  import opened Cel2SqlEmit
  import opened Cel2SqlMeaning
  import opened Cel2SqlReadback
  import opened Cel2SqlPreservation
  import opened CelSemantics
  import opened SqlReader

  /** PostgreSQL keeps a row when the filter is true; NULL does not keep it. */
  predicate Selected(w: World, row: Row, q: Sql) {
    EvalSql(w, row, q) == B(true)
  }

  /**
   The tokens in the buffer, read by PostgreSQL, keep a row on which CEL yields true and drop a row
   on which CEL yields false; and they never make the statement fail.
   */
  lemma FilterSelectsTheSameRows(w: World, row: Row, e: Expr)
    requires Supported(e) && Readable(e) && e.ty.TBool? && RowFits(w, row, e)
    ensures Emit(e).Ok? && ReadFilter(Emit(e).toks).Some?
    ensures var q := ReadFilter(Emit(e).toks).value;
      && EvalSql(w, row, q) != Bad
      && (Eval(w, row, e).VBool? ==> EvalSql(w, row, q) == B(Eval(w, row, e).b))
      && (Eval(w, row, e).VBool? ==> (Selected(w, row, q) <==> Eval(w, row, e).b))
  {
    ReadBack(e);
    Preserves(w, row, e);
  }

  /**
   A filter that passes the type check is a condition on rows if and only if its type is Boolean: one of unknown type
   passes too, and is written as text, which PostgreSQL does not take for a condition, even where CEL finds `true`.
   */
  lemma {:induction false} AcceptedIsAConditionIff(w: World, row: Row, e: Expr)
    requires Supported(e) && Readable(e) && (e.ty.TBool? || e.ty.TDyn?) && RowFits(w, row, e)
    ensures BooleanAssignable(e.ty) && Emit(e).Ok? && ReadFilter(Emit(e).toks).Some?
    ensures var q := EvalSql(w, row, ReadFilter(Emit(e).toks).value); var v := Eval(w, row, e);
      !v.VErr? && !v.VNull? ==> (q.B? <==> e.ty.TBool?) && (q.T? <==> e.ty.TDyn?)
  {
    ReadBack(e);
    Preserves(w, row, e);
  }

  // ---------- equality on dynamic data ----------

  predicate IsEquality(op: BinOp) { op.Eq? || op.Ne? }

  function Text(t: Option<string>): SqlVal { if t.Some? then T(t.value) else Null }

  /** A path into the record's data, ending in a field or in a key, and what it yields in both languages. */
  lemma DataVal(w: World, row: Row, d: Expr)
    requires Supported(d) && d.ty.TDyn?
    ensures var v := Eval(w, row, d);
      EvalSql(w, row, Meaning(d)) == Text(DynText(w, v)) && (DynText(w, v).None? ==> v.VErr? || v.VNull?)
  {
    DataFits(w, row, d);
    Preserves(w, row, d);
  }

  lemma DataFits(w: World, row: Row, d: Expr)
    requires Supported(d) && d.ty.TDyn?
    ensures RowFits(w, row, d) && (d.Select? || d.Index?)
  {
  }

  function Quoted(text: string): Expr { Const(TString, StringConst(text)) }

  /** Equality of a value with a string, in values. */
  lemma ValueEqualsText(w: World, op: BinOp, v: Val, text: string)
    requires IsEquality(op) && !v.VErr? && (DynText(w, v).None? ==> v.VNull?)
    ensures var result := BinaryVal(op, v, VStr(text));
      && result.VBool?
      && (SqlBin(w, BinaryToken(op).op, Text(DynText(w, v)), T(text)) == B(result.b) <==>
            v.VStr? || (!v.VNull? && DynText(w, v) != Some(text)))
  {
  }

  lemma QuotedVal(w: World, row: Row, text: string)
    ensures Eval(w, row, Quoted(text)) == VStr(text) && EvalSql(w, row, Meaning(Quoted(text))) == T(text)
  {
  }

  /**
   Equality of dynamic data with a string, but for data["key"] == "text", is kept exactly when the value is a
   string, or is neither null nor written the same as the string.
   */
  lemma DataEqualityIsKeptIff(w: World, row: Row, op: BinOp, d: Expr, text: string)
    requires IsEquality(op) && Supported(d) && d.ty.TDyn? && !(op.Eq? && d.Index? && d.base.Ident?)
    requires !Eval(w, row, d).VErr?
    ensures var e := Binary(TBool, op, d, Quoted(text)); var v := Eval(w, row, d);
      && Eval(w, row, e).VBool?
      && (EvalSql(w, row, Meaning(e)) == B(Eval(w, row, e).b) <==>
            v.VStr? || (!v.VNull? && DynText(w, v) != Some(text)))
  {
    DataVal(w, row, d);
    QuotedVal(w, row, text);
    InfixVal(w, row, Binary(TBool, op, d, Quoted(text)));
    ValueEqualsText(w, op, Eval(w, row, d), text);
  }

  // ---------- operands that compete with their context ----------

  predicate IsComparison(op: BinOp) { op.Eq? || op.Ne? || op.Lt? || op.Le? || op.Gt? || op.Ge? }

  predicate PlainInfix(e: Expr) {
    && e.Binary? && !IsConcat(e)
    && !IsJsonContains(e.left, e.op, e.right) && !IsJsonContains(e.right, e.op, e.left)
    && Uncast(e.left, e.right) && Uncast(e.right, e.left)
  }

  /** No cast is written after the operand. */
  predicate Uncast(operand: Expr, other: Expr) { IsDyn(operand) ==> !other.ty.TTimestamp? && !other.ty.TUntyped? }

  lemma PlainTokens(e: Expr)
    requires PlainInfix(e) && Emit(e.left).Ok? && Emit(e.right).Ok?
    ensures Emit(e).Ok?
    ensures Emit(e).toks == [TLPar] + (Emit(e.left).toks + ([BinaryToken(e.op)] + (Emit(e.right).toks + [TRPar])))
  {
    InfixTokens(e, []);
    assert Operand(e.left, e.right).toks == Emit(e.left).toks;
    assert Operand(e.right, e.left).toks == Emit(e.right).toks;
    assert [TRPar] + [] == [TRPar];
    assert Emit(e).toks + [] == Emit(e).toks;
  }

  /** What follows a comparison operator, up to the closing parenthesis. */
  lemma RightSide(e: Expr)
    requires Readable(e)
    ensures Emit(e).Ok?
    ensures var r := Parse(4, Emit(e).toks + [TRPar]);
      if Shape(e) >= 4 then r == Got(Meaning(e), [TRPar]) else r.Got? ==> Level(r.rest) == 3
  {
    ReadsInside(e, [TRPar]);
    if Shape(e) >= 4 {
      ReadsAt(e, 4, [TRPar]);
    } else if e.Not? {
      WrappedTokens([TNot, TLPar], Emit(e.arg).toks, [TRPar], [TRPar]);
      assert (Emit(e).toks + [TRPar])[0] == TNot;
      NotIsLoose(4, Emit(e).toks + [TRPar]);
    } else {
      ContainsStops(e, [TRPar]);
    }
  }

  /** A bare `contains` stops a reader of tighter operands at its own comparison. */
  lemma ContainsStops(e: Expr, rest: seq<Token>)
    requires Readable(e) && e.TextCall? && e.fn.Contains?
    ensures Emit(e).Ok?
    ensures var stop := Got(Position(Meaning(e.arg), Meaning(e.target)), [TOp(NeOp)] + ([TLit(LInt(0))] + rest));
      Parse(9, Emit(e).toks + rest) == stop && Parse(4, Emit(e).toks + rest) == stop
  {
    var tail := [TOp(NeOp)] + ([TLit(LInt(0))] + rest);
    var close := [TRPar] + tail;
    ReadsAsHead(e.target, close);
    var hay := Emit(e.target).toks + close;
    ReadsAsHead(e.arg, [TIn] + hay);
    var args := Emit(e.arg).toks + ([TIn] + hay);
    PositionStep(args, Meaning(e.arg), hay, Meaning(e.target), tail);
    Loosen(9, 4, [TPosition, TLPar] + args);
    ContainsTokens(Emit(e.target).toks, Emit(e.arg).toks, rest);
  }

  /** `left op right )` where the left operand has been read whole. */
  lemma AfterLeft(ts: seq<Token>, left: Sql, op: SqlOp, right: Expr)
    requires OpLevel(op) == 3 && Readable(right)
    requires Emit(right).Ok? && Parse(4, ts) == Got(left, [TOp(op)] + (Emit(right).toks + [TRPar]))
    ensures Parse(3, ts) == if Shape(right) >= 4 then Got(Bin(op, left, Meaning(right)), [TRPar]) else Fail
  {
    RightSide(right);
    var tail := Emit(right).toks + [TRPar];
    if Shape(right) >= 4 {
      InfixStep(3, ts, left, op, tail, Meaning(right), [TRPar]);
    } else {
      ComparisonTwice(ts, left, op, tail);
    }
  }

  function ComparisonReading(e: Expr): Option<Sql>
    requires e.Binary?
  {
    if Shape(e.right) < 4 then None
    else if Shape(e.left) >= 4 then Some(Meaning(e))
    else if e.left.Not? then Some(SNot(InfixMeaning(e.op, Meaning(e.left.arg), Meaning(e.right))))
    else None
  }

  /**
   How PostgreSQL reads a comparison of any two readable operands: a bare `contains` on either side,
   or a negation on the right, is a syntax error, and a negation on the left takes in the comparison.
   */
  lemma {:induction false} ComparisonReads(e: Expr)
    requires PlainInfix(e) && IsComparison(e.op) && Readable(e.left) && Readable(e.right)
    ensures Emit(e).Ok?
    ensures ReadFilter(Emit(e).toks) == ComparisonReading(e)
  {
    ReadsInside(e.left, []);
    ReadsInside(e.right, []);
    PlainTokens(e);
    var op := BinaryToken(e.op).op;
    if Shape(e.left) >= 4 {
      TightLeft(e.left, op, e.right);
    } else if e.left.Not? {
      NotLeft(e.left, op, e.right);
    } else {
      ContainsLeft(e.left, op, e.right);
    }
  }

  /** The contents of the parentheses around a comparison, with the closing one. */
  function Inner(left: Expr, op: SqlOp, right: Expr): seq<Token>
    requires Emit(left).Ok? && Emit(right).Ok?
  {
    Emit(left).toks + ([TOp(op)] + (Emit(right).toks + [TRPar]))
  }

  lemma TightLeft(left: Expr, op: SqlOp, right: Expr)
    requires OpLevel(op) == 3 && Readable(left) && Readable(right) && Emit(left).Ok? && Emit(right).Ok?
    requires Shape(left) >= 4
    ensures ReadFilter([TLPar] + Inner(left, op, right))
         == if Shape(right) >= 4 then Some(Bin(op, Meaning(left), Meaning(right))) else None
  {
    var inner := Inner(left, op, right);
    ReadsAt(left, 4, [TOp(op)] + (Emit(right).toks + [TRPar]));
    AfterLeft(inner, Meaning(left), op, right);
    if Next(inner, TNot) { NotIsLoose(4, inner); }
    Settle(inner);
  }

  lemma NotLeft(left: Expr, op: SqlOp, right: Expr)
    requires OpLevel(op) == 3 && Readable(left) && Readable(right) && Emit(left).Ok? && Emit(right).Ok?
    requires left.Not?
    ensures ReadFilter([TLPar] + Inner(left, op, right))
         == if Shape(right) >= 4 then Some(SNot(Bin(op, Meaning(left.arg), Meaning(right)))) else None
  {
    var inner := Inner(left, op, right);
    NegatedLeft(left.arg, op, right);
    WrappedTokens([TNot, TLPar], Emit(left.arg).toks, [TRPar], [TOp(op)] + (Emit(right).toks + [TRPar]));
    assert inner[0] == TNot;
    Settle(inner);
  }

  lemma ContainsLeft(left: Expr, op: SqlOp, right: Expr)
    requires OpLevel(op) == 3 && Readable(left) && Emit(left).Ok? && Emit(right).Ok?
    requires left.TextCall? && left.fn.Contains?
    ensures ReadFilter([TLPar] + Inner(left, op, right)) == None
  {
    var tail := [TOp(op)] + (Emit(right).toks + [TRPar]);
    ContainsStops(left, tail);
    var zero := [TLit(LInt(0))] + tail;
    AtomReads(5, TLit(LInt(0)), tail);
    Loosen(5, 4, zero);
    ComparisonTwice(Inner(left, op, right), Position(Meaning(left.arg), Meaning(left.target)), NeOp, zero);
    FirstToken(left);
    Settle(Inner(left, op, right));
  }

  /** Nothing but NOT starts with NOT. */
  lemma FirstToken(e: Expr)
    requires Readable(e) && e.TextCall? && e.fn.Contains?
    ensures Emit(e).Ok? && Emit(e).toks != [] && Emit(e).toks[0] == TPosition
  {
    ReadsInside(e, []);
    ContainsStops(e, []);
    ContainsTokens(Emit(e.target).toks, Emit(e.arg).toks, []);
    assert Emit(e).toks + [] == Emit(e).toks;
  }

  /** From the contents of the outermost parentheses to the filter. */
  lemma Settle(inner: seq<Token>)
    requires var r := Parse(if Next(inner, TNot) then 2 else 3, inner); r.Fail? || r.rest == [TRPar]
    ensures var r := Parse(if Next(inner, TNot) then 2 else 3, inner);
      ReadFilter([TLPar] + inner) == if r.Fail? then None else Some(r.tree)
  {
    var level := if Next(inner, TNot) then 2 else 3;
    var r := Parse(level, inner);
    if r.Fail? {
      FailsLoosely(level, 0, inner);
      UnreadableGroup(inner);
    } else {
      Loosen(level, 0, inner);
      ReadableGroup(inner, r.tree);
    }
  }

  lemma NegatedLeft(arg: Expr, op: SqlOp, right: Expr)
    requires OpLevel(op) == 3 && Readable(arg) && Readable(right)
    ensures Emit(arg).Ok? && Emit(right).Ok?
    ensures Parse(2, [TNot, TLPar] + (Emit(arg).toks + ([TRPar] + ([TOp(op)] + (Emit(right).toks + [TRPar])))))
         == if Shape(right) >= 4 then Got(SNot(Bin(op, Meaning(arg), Meaning(right))), [TRPar]) else Fail
  {
    ReadsInside(right, []);
    var tail := [TOp(op)] + (Emit(right).toks + [TRPar]);
    ReadsInside(arg, [TRPar] + tail);
    NegatedGroup(Emit(arg).toks, Meaning(arg), op, right);
  }

  lemma NegatedGroup(arg: seq<Token>, tree: Sql, op: SqlOp, right: Expr)
    requires OpLevel(op) == 3 && Readable(right) && Emit(right).Ok?
    requires var close := [TRPar] + ([TOp(op)] + (Emit(right).toks + [TRPar]));
      Parse(0, arg + close) == Got(tree, close)
    ensures Parse(2, [TNot, TLPar] + (arg + ([TRPar] + ([TOp(op)] + (Emit(right).toks + [TRPar])))))
         == if Shape(right) >= 4 then Got(SNot(Bin(op, tree, Meaning(right))), [TRPar]) else Fail
  {
    var tail := [TOp(op)] + (Emit(right).toks + [TRPar]);
    var body := arg + ([TRPar] + tail);
    var group := [TLPar] + body;
    GroupStep(body, tree, tail);
    Loosen(9, 4, group);
    AfterLeft(group, tree, op, right);
    if Shape(right) >= 4 {
      Loosen(3, 2, group);
      NotStep(group, Bin(op, tree, Meaning(right)), [TRPar]);
    } else {
      FailsLoosely(3, 2, group);
      assert ([TNot] + group)[1..] == group;
    }
    assert [TNot, TLPar] + body == [TNot] + group;
  }

  /** So a comparison reads back as meant if and only if neither operand is a negation or a bare `contains`. */
  lemma ComparisonReadsBackIff(e: Expr)
    requires PlainInfix(e) && IsComparison(e.op) && Readable(e.left) && Readable(e.right)
    ensures Emit(e).Ok?
    ensures ReadFilter(Emit(e).toks) == Some(Meaning(e)) <==> Shape(e.left) >= 4 && Shape(e.right) >= 4
  {
    ComparisonReads(e);
    assert Meaning(e).Bin?;
  }

  // ---------- what the translation drops ----------

  /** A literal that is written at all reads back as meant if and only if it is not a uint, or is 0u. */
  lemma LiteralReadsBackIff(ty: Ty, c: Const)
    requires !c.BytesConst?
    ensures var e := Const(ty, c); Emit(e).Ok? && (ReadFilter(Emit(e).toks) == Some(Meaning(e)) <==> (c.UintConst? ==> c.u == 0))
  {
    var e := Const(ty, c);
    if c.UintConst? {
      var zero := Const(ty, UintConst(0));
      ReadBack(zero);
      assert Emit(e) == Emit(zero) && Meaning(zero) == Lit(LInt(0)) && Meaning(e) == Lit(LInt(c.u));
    } else {
      ReadBack(e);
    }
  }

  /** All operands of a tree of additions. */
  function SumOperands(e: Expr): seq<Expr> {
    if e.Binary? && e.op.Add? then SumOperands(e.left) + SumOperands(e.right) else [e]
  }

  predicate HasCall(es: seq<Expr>) { exists i :: 0 <= i < |es| && IsCall(es[i]) }

  /** CONCAT gets every operand of the additions if and only if none of them is a call. */
  lemma {:induction false} ConcatKeepsOperandsIff(e: Expr)
    ensures |ConcatLeaves(e)| <= |SumOperands(e)|
    ensures ConcatLeaves(e) == SumOperands(e) <==> !HasCall(SumOperands(e))
    ensures HasCall(SumOperands(e)) ==> |ConcatLeaves(e)| < |SumOperands(e)|
  {
    if e.Binary? && e.op.Add? {
      ConcatKeepsOperandsIff(e.left);
      ConcatKeepsOperandsIff(e.right);
      var a, b := SumOperands(e.left), SumOperands(e.right);
      assert HasCall(a + b) <==> HasCall(a) || HasCall(b) by {
        if i :| 0 <= i < |a| && IsCall(a[i]) { assert (a + b)[i] == a[i]; }
        if i :| 0 <= i < |b| && IsCall(b[i]) { assert (a + b)[|a| + i] == b[i]; }
      }
    } else {
      assert [e][0] == e;
    }
  }

  /** The outermost index of a path keeps its key if and only if the key is a string. */
  lemma OutermostIndexKeptIff(base: Expr, key: Const)
    requires base.Select? && IsDyn(base.operand) && ConstantChain(base.operand)
    requires key.IntConst? || key.StringConst?
    ensures var e := Index(TDyn, base, Const(TDyn, key));
      Emit(e).Ok? && (ReadFilter(Emit(e).toks) == Some(Meaning(e)) <==> key.StringConst?)
  {
    var e := Index(TDyn, base, Const(TDyn, key));
    var printed := Index(TDyn, base, Const(TDyn, StringConst(ConstString(e.key))));
    PrintedAlike(base, Const(TDyn, key));
    ReadBack(printed);
    assert Meaning(e) == Bin(ArrowTextOp, ChainMeaning(base), ConstMeaning(key));
    assert Meaning(printed) == Bin(ArrowTextOp, ChainMeaning(base), Lit(LText(ConstString(e.key))));
  }

  /** A constant key prints as the string it holds, which is empty if it is no string. */
  lemma PrintedAlike(base: Expr, key: Expr)
    requires base.Select? && key.Const?
    ensures Emit(Index(TDyn, base, key)) == Emit(Index(TDyn, base, Const(TDyn, StringConst(ConstString(key)))))
  {
  }

  /** An index into the summary is dropped, whatever its key. */
  lemma SummaryIndexIsDropped(ty: Ty, summary: Expr, field: string, key: Const)
    requires summary.Ident? && IsRecordSummary(summary)
    ensures var base := Select(TStringMap, summary, field, false);
      Emit(Index(ty, base, Const(TString, key))) == Emit(base) == Ok([TWord("recordsummary_" + field)])
  {
    var base := Select(TStringMap, summary, field, false);
    SelectPath(base);
    SummaryTokens(base);
    var path := Reverse(SelectFields(base).fields);
    assert path == [Root(summary.name), Key(field)] by {
      assert SelectFields(summary).fields == [Root(summary.name)];
      ReverseCons(Root(summary.name), []);
      assert [Root(summary.name)] + [] == [Root(summary.name)];
    }
    assert (path + [Key(ConstString(Const(TString, key)))])[1] == Key(field);
  }
}
