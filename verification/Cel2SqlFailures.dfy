/** When the translator rejects a filter, and when it dereferences nil, found on the filter alone. */
module Cel2SqlFailures {
  import opened Prelude
  import opened CelAst
  import opened Cel2SqlEmit

  // ---------- chains ----------

  predicate PlainKey(key: Expr) { key.Const? && (key.c.IntConst? || key.c.StringConst?) }

  /** The first step of a chain, from the leaf, that is no field and no constant integer or string key. */
  function FirstOddStep(e: Expr): Option<Expr> {
    match e
    case Ident(_, _, _) => None
    case Select(_, operand, _, _) => FirstOddStep(operand)
    case Index(_, base, key) => if PlainKey(key) then FirstOddStep(base) else Some(e)
    case _ => Some(e)
  }

  /** An index whose key is not a constant: its constant is nil, and is dereferenced. */
  predicate NilKey(e: Expr) { e.Index? && !e.key.Const? }

  /** A chain crashes the translator exactly when its first odd step is an index by something that is no constant. */
  lemma {:induction false} ChainFailsIff(e: Expr)
    ensures SelectFields(e).Fields? <==> FirstOddStep(e).None?
    ensures SelectFields(e).CrashPath? <==> FirstOddStep(e).Some? && NilKey(FirstOddStep(e).value)
  {
    match e
    case Select(_, operand, _, _) => ChainFailsIff(operand);
    case Index(_, base, _) => ChainFailsIff(base);
    case _ =>
  }

  // ---------- whole filters ----------

  /** What the translator asks for in turn: an expression that it writes in one go, or the cast after a dyn operand. */
  datatype Ask = Node(e: Expr) | CastBeside(operand: Expr, other: Expr)

  datatype Verdict = Fine | Rejected | Crashed

  function PathVerdict(e: Expr): Verdict {
    var odd := FirstOddStep(e);
    if odd.None? then Fine else if NilKey(odd.value) then Crashed else Rejected
  }

  /** A select, alone or under one more index, is recognised by the type of its operand. */
  function SelectVerdict(e: Expr, keyIsConst: bool): Verdict
    requires e.Select?
  {
    if !PathVerdict(e).Fine? then PathVerdict(e)
    else if keyIsConst && (IsDyn(e.operand) || IsRecordSummary(e.operand)) then Fine
    else Rejected
  }

  function IdentVerdict(reference: Option<Const>): Verdict {
    if reference.Some? && reference.value.BytesConst? then Rejected else Fine
  }

  function Judge(a: Ask): Verdict {
    match a
    case CastBeside(operand, other) => if IsDyn(operand) && other.ty.TUntyped? then Rejected else Fine
    case Node(e) =>
      match e
      case Const(_, c) => if c.BytesConst? then Rejected else Fine
      case Ident(_, _, reference) => IdentVerdict(reference)
      case Select(_, _, _, _) => SelectVerdict(e, true)
      case Index(_, base, key) =>
        if base.Select? then SelectVerdict(base, key.Const?)
        else if base.Ident? then IdentVerdict(base.reference)
        else Rejected
      case _ => Rejected
  }

  /** Everything asked for, in the order it is written. */
  function Asks(e: Expr): seq<Ask>
    decreases e, 0
  {
    match e
    case Not(_, arg) => Asks(arg)
    case Binary(_, op, left, right) =>
      if IsConcat(e) then AsksAll(e, ConcatLeaves(e))
      else if IsJsonContains(left, op, right) then Asks(left.base)
      else if IsJsonContains(right, op, left) then Asks(right.base)
      else (Asks(left) + [CastBeside(left, right)]) + (Asks(right) + [CastBeside(right, left)])
    case TextCall(_, fn, target, arg) => if fn.Contains? then Asks(arg) + Asks(target) else Asks(target) + Asks(arg)
    case TimeCall(_, _, target, _) => Asks(target)
    case ToTimestamp(_, arg) => Asks(arg)
    case ListLit(_, elems) => AsksAll(e, elems)
    case _ => [Node(e)]
  }

  function AsksAll(bound: Expr, es: seq<Expr>): seq<Ask>
    requires forall i :: 0 <= i < |es| ==> es[i] < bound
    decreases bound, 0, |es|
  {
    if es == [] then [] else Asks(es[0]) + AsksAll(bound, es[1..])
  }

  /** The first that cannot be had decides. */
  function FirstFailure(asks: seq<Ask>): Verdict {
    if asks == [] then Fine else if !Judge(asks[0]).Fine? then Judge(asks[0]) else FirstFailure(asks[1..])
  }

  function StatusOf(x: Emitted): Verdict {
    match x case Ok(_) => Fine case Unsupported => Rejected case Crash => Crashed
  }

  function AndThen(a: Verdict, b: Verdict): Verdict { if a.Fine? then b else a }

  lemma {:induction false} FailureAppends(a: seq<Ask>, b: seq<Ask>)
    ensures FirstFailure(a + b) == AndThen(FirstFailure(a), FirstFailure(b))
  {
    if a == [] {
      assert a + b == b;
    } else {
      assert (a + b)[1..] == a[1..] + b;
      FailureAppends(a[1..], b);
    }
  }

  lemma FailureOfOne(a: Ask)
    ensures FirstFailure([a]) == Judge(a)
  {
    assert [a][1..] == [];
  }

  lemma SelectStatus(e: Expr, key: Option<Expr>)
    requires e.Select?
    ensures StatusOf(EmitSelect(e, key)) == SelectVerdict(e, key.Some? ==> key.value.Const?)
  {
    ChainFailsIff(e);
  }

  lemma NodeStatus(e: Expr)
    requires e.Const? || e.Ident? || e.Select? || e.Index? || e.OtherCall? || e.OtherExpr?
    ensures StatusOf(Emit(e)) == Judge(Node(e))
  {
    if e.Select? { SelectStatus(e, None); }
    if e.Index? && e.base.Select? { SelectStatus(e.base, Some(e.key)); }
  }

  lemma {:induction false} OperandStatus(operand: Expr, other: Expr)
    requires StatusOf(Emit(operand)) == FirstFailure(Asks(operand))
    ensures StatusOf(Operand(operand, other)) == FirstFailure(Asks(operand) + [CastBeside(operand, other)])
  {
    FailureAppends(Asks(operand), [CastBeside(operand, other)]);
    FailureOfOne(CastBeside(operand, other));
  }

  /**
   The translator's outcome on any filter, found without translating it: the first of the things it asks for
   that cannot be had decides whether it rejects the filter or crashes.
   */
  lemma {:induction false} FailsAtTheFirst(e: Expr)
    ensures StatusOf(Emit(e)) == FirstFailure(Asks(e))
    decreases e, 1
  {
    match e
    case Not(_, arg) => FailsAtTheFirst(arg);
    case Binary(_, _, _, _) => BinaryFails(e);
    case TextCall(_, fn, target, arg) =>
      FailsAtTheFirst(target);
      FailsAtTheFirst(arg);
      FailureAppends(Asks(arg), Asks(target));
      FailureAppends(Asks(target), Asks(arg));
    case TimeCall(_, _, target, _) => FailsAtTheFirst(target);
    case ToTimestamp(_, arg) => FailsAtTheFirst(arg);
    case ListLit(_, elems) => SeqFails(e, elems);
    case _ =>
      NodeStatus(e);
      FailureOfOne(Node(e));
  }

  lemma {:induction false} BinaryFails(e: Expr)
    requires e.Binary?
    ensures StatusOf(Emit(e)) == FirstFailure(Asks(e))
    decreases e, 0
  {
    if IsConcat(e) {
      SeqFails(e, ConcatLeaves(e));
    } else if IsJsonContains(e.left, e.op, e.right) {
      FailsAtTheFirst(e.left.base);
    } else if IsJsonContains(e.right, e.op, e.left) {
      FailsAtTheFirst(e.right.base);
    } else {
      FailsAtTheFirst(e.left);
      FailsAtTheFirst(e.right);
      OperandStatus(e.left, e.right);
      OperandStatus(e.right, e.left);
      FailureAppends(Asks(e.left) + [CastBeside(e.left, e.right)], Asks(e.right) + [CastBeside(e.right, e.left)]);
      InfixStatus(e.op, Operand(e.left, e.right), Operand(e.right, e.left));
    }
  }

  lemma InfixStatus(op: BinOp, left: Emitted, right: Emitted)
    ensures StatusOf(EmitInfix(op, left, right)) == AndThen(StatusOf(left), StatusOf(right))
  {
  }

  lemma {:induction false} SeqFails(bound: Expr, es: seq<Expr>)
    requires forall i :: 0 <= i < |es| ==> es[i] < bound
    ensures StatusOf(EmitSeq(bound, es)) == FirstFailure(AsksAll(bound, es))
    decreases bound, 0, |es|
  {
    if es != [] {
      FailsAtTheFirst(es[0]);
      SeqFails(bound, es[1..]);
      FailureAppends(Asks(es[0]), AsksAll(bound, es[1..]));
      if |es| == 1 {
        assert es[1..] == [];
        assert Asks(es[0]) + [] == Asks(es[0]);
      }
    }
  }

  /** A filter crashes the translator exactly when the first thing that cannot be had is a chain whose first odd step has no constant key. */
  lemma CrashesIff(e: Expr)
    ensures Emit(e).Crash? <==> FirstFailure(Asks(e)).Crashed?
    ensures Emit(e).Ok? <==> FirstFailure(Asks(e)).Fine?
  {
    FailsAtTheFirst(e);
  }

  /** `data.a[name].b == "x"` */
  lemma VariableKeyCrashes(base: Expr, name: Expr, field: string, text: string)
    requires base.Ident? && !name.Const?
    ensures var chain := Select(TDyn, Index(TDyn, Select(TDyn, base, "a", false), name), field, false);
      Emit(Binary(TBool, Eq, chain, Const(TString, StringConst(text)))).Crash?
  {
    var chain := Select(TDyn, Index(TDyn, Select(TDyn, base, "a", false), name), field, false);
    ChainFailsIff(chain);
    assert FirstOddStep(chain) == FirstOddStep(chain.operand) == Some(chain.operand);
    assert Emit(chain).Crash?;
  }
}
