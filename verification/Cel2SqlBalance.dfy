/** Whatever the translator writes, readable or not, its parentheses match. */
module Cel2SqlBalance {
  import opened Prelude
  import opened CelAst
  import opened SqlAst
  import opened Cel2SqlEmit
  import opened SqlBalance

  ghost predicate Whole(x: Emitted) { x.Ok? ==> Balanced(x.toks) }

  predicate Neutral(ts: seq<Token>) { forall i :: 0 <= i < |ts| ==> Weight(ts[i]) == 0 }

  lemma NothingIsBalanced()
    ensures Balanced([])
  {
    TakesNothing([]);
    assert Used([], []) == [];
  }

  lemma {:induction false} NeutralAreBalanced(ts: seq<Token>)
    requires Neutral(ts)
    ensures Balanced(ts)
  {
    if ts == [] {
      NothingIsBalanced();
    } else {
      NeutralIsBalanced(ts[0]);
      NeutralAreBalanced(ts[1..]);
      BalancedAppends([ts[0]], ts[1..]);
      assert ts == [ts[0]] + ts[1..];
    }
  }

  lemma ThenIsWhole(a: Emitted, b: Emitted)
    requires Whole(a) && Whole(b)
    ensures Whole(Then(a, b))
  {
    if a.Ok? && b.Ok? { BalancedAppends(a.toks, b.toks); }
  }

  lemma NeutralIsWhole(ts: seq<Token>)
    requires Neutral(ts)
    ensures Whole(Ok(ts))
  {
    NeutralAreBalanced(ts);
  }

  /** before ( inner ) after */
  lemma GroupIsWhole(before: seq<Token>, inner: Emitted, after: seq<Token>)
    requires Neutral(before) && Neutral(after) && Whole(inner)
    ensures Whole(Then(Then(Ok(before + [TLPar]), inner), Ok([TRPar] + after)))
  {
    if inner.Ok? {
      NeutralAreBalanced(before);
      NeutralAreBalanced(after);
      GroupIsBalanced(inner.toks);
      var group := [TLPar] + inner.toks + [TRPar];
      BalancedAppends(before, group);
      BalancedAppends(before + group, after);
      assert (before + [TLPar]) + inner.toks + ([TRPar] + after) == before + group + after;
    }
  }

  lemma {:induction false} AccessorsAreNeutral(path: seq<Field>)
    requires |path| > 0
    ensures Neutral(AccessorTokens(path))
  {
    if |path| > 1 { AccessorsAreNeutral(path[..|path| - 1]); }
  }

  lemma SelectIsWhole(e: Expr, key: Option<Expr>)
    requires e.Select?
    ensures Whole(EmitSelect(e, key))
  {
    var r := EmitSelect(e, key);
    if r.Ok? {
      if IsDyn(e.operand) {
        var path := Reverse(SelectFields(e).fields) + (if key.Some? then [Key(ConstString(key.value))] else []);
        var inner := AccessorTokens(path[..|path| - 1]) + [TOp(ArrowTextOp), FieldToken(path[|path| - 1])];
        AccessorsAreNeutral(path[..|path| - 1]);
        NeutralAreBalanced(inner);
        GroupIsBalanced(inner);
        assert r.toks == [TLPar] + inner + [TRPar];
      } else {
        NeutralAreBalanced(r.toks);
      }
    }
  }

  lemma TextIsWhole(fn: TextFn, target: Emitted, arg: Emitted)
    requires Whole(target) && Whole(arg)
    ensures Whole(EmitText(fn, target, arg))
  {
    match fn
    case Contains =>
      NeutralIsWhole([TIn]);
      ThenIsWhole(arg, Ok([TIn]));
      ThenIsWhole(Then(arg, Ok([TIn])), target);
      GroupIsWhole([TPosition], Then(Then(arg, Ok([TIn])), target), [TOp(NeOp), TLit(LInt(0))]);
      ContainsRegroups(target, arg);
    case StartsWith =>
      NeutralIsWhole([TOp(LikeOp)]);
      NeutralIsWhole([TOp(ConcatOp), TLit(LText("%"))]);
      ThenIsWhole(target, Ok([TOp(LikeOp)]));
      ThenIsWhole(Then(target, Ok([TOp(LikeOp)])), arg);
      ThenIsWhole(Then(Then(target, Ok([TOp(LikeOp)])), arg), Ok([TOp(ConcatOp), TLit(LText("%"))]));
    case EndsWith =>
      var like := Ok([TOp(LikeOp), TLit(LText("%")), TOp(ConcatOp)]);
      NeutralIsWhole(like.toks);
      ThenIsWhole(target, like);
      ThenIsWhole(Then(target, like), arg);
    case Matches =>
      NeutralIsWhole([TOp(RegexOp)]);
      ThenIsWhole(target, Ok([TOp(RegexOp)]));
      ThenIsWhole(Then(target, Ok([TOp(RegexOp)])), arg);
  }

  lemma ContainsRegroups(target: Emitted, arg: Emitted)
    ensures EmitText(Contains, target, arg)
         == Then(Then(Ok([TPosition] + [TLPar]), Then(Then(arg, Ok([TIn])), target)), Ok([TRPar] + [TOp(NeOp), TLit(LInt(0))]))
  {
    var open := Ok([TPosition, TLPar]);
    assert [TPosition] + [TLPar] == open.toks;
    ThenAssociative(open, arg, Ok([TIn]));
    ThenAssociative(open, Then(arg, Ok([TIn])), target);
    assert [TRPar] + [TOp(NeOp), TLit(LInt(0))] == [TRPar, TOp(NeOp), TLit(LInt(0))];
  }

  lemma InfixIsWhole(op: BinOp, left: Emitted, right: Emitted)
    requires Whole(left) && Whole(right)
    ensures Whole(EmitInfix(op, left, right))
  {
    var open, mid := Ok([TLPar]), Ok([BinaryToken(op)]);
    NeutralIsWhole(mid.toks);
    ThenIsWhole(left, mid);
    ThenIsWhole(Then(left, mid), right);
    GroupIsWhole([], Then(Then(left, mid), right), []);
    ThenAssociative(open, left, mid);
    ThenAssociative(open, Then(left, mid), right);
    assert [] + [TLPar] == [TLPar] && [TRPar] + [] == [TRPar];
  }

  lemma {:induction false} OperandIsWhole(operand: Expr, other: Expr)
    requires Whole(Emit(operand))
    ensures Whole(Operand(operand, other))
  {
    var cast := Coercion(operand, other);
    if cast.Ok? { NeutralAreBalanced(cast.toks); }
    ThenIsWhole(Emit(operand), cast);
  }

  /** Every token string the translator leaves in the buffer is balanced. */
  lemma {:induction false} EmitIsBalanced(e: Expr)
    ensures Whole(Emit(e))
    decreases e, 1
  {
    match e
    case Const(_, _) => if Emit(e).Ok? { NeutralAreBalanced(Emit(e).toks); }
    case Ident(_, _, _) => if Emit(e).Ok? { NeutralAreBalanced(Emit(e).toks); }
    case Select(_, _, _, _) => SelectIsWhole(e, None);
    case Not(_, arg) =>
      EmitIsBalanced(arg);
      GroupIsWhole([TNot], Emit(arg), []);
      assert [TNot] + [TLPar] == [TNot, TLPar] && [TRPar] + [] == [TRPar];
    case Binary(_, _, _, _) => BinaryIsBalanced(e);
    case Index(_, base, key) => IndexIsBalanced(e);
    case TextCall(_, fn, target, arg) =>
      EmitIsBalanced(target);
      EmitIsBalanced(arg);
      TextIsWhole(fn, Emit(target), Emit(arg));
    case TimeCall(_, _, target, _) =>
      EmitIsBalanced(target);
      TimeIsBalanced(e);
    case ToTimestamp(_, arg) =>
      EmitIsBalanced(arg);
      NeutralIsWhole([TCast(TimestampTz)]);
      ThenIsWhole(Emit(arg), Ok([TCast(TimestampTz)]));
    case ListLit(_, elems) =>
      SeqIsBalanced(e, elems);
      GroupIsWhole([], EmitSeq(e, elems), []);
      assert [] + [TLPar] == [TLPar] && [TRPar] + [] == [TRPar];
    case _ =>
  }

  lemma IndexIsBalanced(e: Expr)
    requires e.Index?
    ensures Whole(Emit(e))
  {
    if e.base.Select? {
      SelectIsWhole(e.base, Some(e.key));
    } else if e.base.Ident? && Emit(e).Ok? {
      NeutralAreBalanced(Emit(e).toks);
    }
  }

  lemma {:induction false} TimeIsBalanced(e: Expr)
    requires e.TimeCall? && Whole(Emit(e.target))
    ensures Whole(Emit(e))
  {
    ExtractIsBalanced(e);
    if Decremented(e.get) {
      var minus := Ok([TOp(SubOp), TLit(LInt(1))]);
      NeutralIsWhole(minus.toks);
      ThenIsWhole(EmitExtract(e), minus);
      GroupIsWhole([], Then(EmitExtract(e), minus), []);
      assert [] + [TLPar] == [TLPar] && [TRPar] + [] == [TRPar];
      DecrementRegroups(EmitExtract(e));
    }
  }

  lemma DecrementRegroups(call: Emitted)
    ensures Then(Then(Ok([TLPar]), call), Ok([TOp(SubOp), TLit(LInt(1)), TRPar]))
         == Then(Then(Ok([TLPar]), Then(call, Ok([TOp(SubOp), TLit(LInt(1))]))), Ok([TRPar]))
  {
    if call.Ok? {
      assert [TLPar] + call.toks + [TOp(SubOp), TLit(LInt(1)), TRPar]
          == [TLPar] + (call.toks + [TOp(SubOp), TLit(LInt(1))]) + [TRPar];
    }
  }

  lemma ExtractIsBalanced(e: Expr)
    requires e.TimeCall? && Whole(Emit(e.target))
    ensures Whole(EmitExtract(e))
  {
    var field := [TField(DateFieldOf(e.get)), TFrom];
    var cast := if IsDyn(e.target) then [TCast(TimestampTz)] else [];
    NeutralIsWhole(field);
    NeutralIsWhole(cast);
    ThenIsWhole(Ok(field), Emit(e.target));
    ThenIsWhole(Then(Ok(field), Emit(e.target)), Ok(cast));
    GroupIsWhole([TExtract], Then(Then(Ok(field), Emit(e.target)), Ok(cast)), []);
    if Emit(e.target).Ok? { ExtractRegroups(TField(DateFieldOf(e.get)), Emit(e.target).toks, cast); }
  }

  lemma ExtractRegroups(field: Token, t: seq<Token>, cast: seq<Token>)
    ensures [TExtract, TLPar, field, TFrom] + t + (cast + [TRPar])
         == ([TExtract] + [TLPar]) + (([field, TFrom] + t) + cast) + ([TRPar] + [])
  {
  }

  lemma {:induction false} BinaryIsBalanced(e: Expr)
    requires e.Binary?
    ensures Whole(Emit(e))
    decreases e, 0
  {
    if IsConcat(e) {
      SeqIsBalanced(e, ConcatLeaves(e));
      GroupIsWhole([TConcat], EmitSeq(e, ConcatLeaves(e)), []);
      assert [TConcat] + [TLPar] == [TConcat, TLPar] && [TRPar] + [] == [TRPar];
    } else if IsJsonContains(e.left, e.op, e.right) {
      EmitIsBalanced(e.left.base);
      NeutralIsWhole(JsonObjectTokens(e.left.key, e.right));
      ThenIsWhole(Emit(e.left.base), Ok(JsonObjectTokens(e.left.key, e.right)));
    } else if IsJsonContains(e.right, e.op, e.left) {
      EmitIsBalanced(e.right.base);
      NeutralIsWhole(JsonObjectTokens(e.right.key, e.left));
      ThenIsWhole(Emit(e.right.base), Ok(JsonObjectTokens(e.right.key, e.left)));
    } else {
      EmitIsBalanced(e.left);
      EmitIsBalanced(e.right);
      OperandIsWhole(e.left, e.right);
      OperandIsWhole(e.right, e.left);
      InfixIsWhole(e.op, Operand(e.left, e.right), Operand(e.right, e.left));
    }
  }

  lemma {:induction false} SeqIsBalanced(bound: Expr, es: seq<Expr>)
    requires forall i :: 0 <= i < |es| ==> es[i] < bound
    ensures Whole(EmitSeq(bound, es))
    decreases bound, 0, |es|
  {
    if es == [] {
      NothingIsBalanced();
    } else {
      EmitIsBalanced(es[0]);
      if |es| > 1 {
        SeqIsBalanced(bound, es[1..]);
        NeutralIsWhole([TComma]);
        ThenIsWhole(Emit(es[0]), Ok([TComma]));
        ThenIsWhole(Then(Emit(es[0]), Ok([TComma])), EmitSeq(bound, es[1..]));
      }
    }
  }
}
