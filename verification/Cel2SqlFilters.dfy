/**
 The filters users write, as a grammar: what can be compared with what, and how each is spelled in CEL. Every
 filter of the grammar is translated without loss, and the rows it keeps are those CEL keeps. Nothing here refers
 to the choices the translator makes.
 */
module Cel2SqlFilters {
  import opened Prelude
  import opened CelAst
  import opened SqlAst
  import opened CelSemantics
  import opened SqlReader
  import opened Cel2SqlEmit
  import opened Cel2SqlMeaning
  import opened Cel2SqlReadback
  import opened Cel2SqlPreservation
  import opened Cel2SqlTheorems
  import opened Cel2SqlOperators

  // ---------- the grammar ----------

  /** One step into the data: .name, ["key"] or [index]. */
  datatype Step = Dot(name: string) | At(key: string) | Nth(index: nat)

  datatype TextColumn = ParentCol | UidCol | NameCol | ResultNameCol | TypeCol

  /** Text that is no call: a literal, a named constant, a column, a summary field, or data.first.rest.field. */
  datatype Piece =
    | Literal(s: string)
    | Named(name: string, s: string)
    | Column(col: TextColumn)
    | SummaryRecord
    | SummaryType
    | Value(first: Step, rest: seq<Step>, field: string)

  datatype Sum = Leaf(piece: Piece) | Plus(left: Sum, right: Sum)

  /** Text: a sum of pieces, data.first.rest.field["key"], annotations["key"] or data["key"]. */
  datatype Text =
    | Joined(sum: Sum)
    | Keyed(first: Step, rest: seq<Step>, field: string, key: string)
    | Annotation(key: string)
    | DataKey(key: string)

  datatype Time =
    | Created | Updated | Started | Ended
    | Parsed(piece: Piece)                                  // timestamp(piece)
    | Dynamic(first: Step, rest: seq<Step>, field: string)  // data beside a time

  datatype Number =
    | Int(i: int)
    | NamedInt(name: string, i: int)
    | Status
    | Part(get: TimeGet, time: Time)
    | Calc(op: BinOp, left: Number, right: Number)

  datatype Entries = Annotations | SummaryAnnotations | Data

  datatype Filter =
    | EntryIs(entries: Entries, key: string, value: string, literalFirst: bool)
    | TextIs(equal: bool, left: Text, right: Text)
    | TextHas(fn: TextFn, target: Text, arg: Text)
    | TextIn(text: Text, choices: seq<Text>)
    | NumberIs(cmp: BinOp, x: Number, y: Number)
    | NumberIn(number: Number, numbers: seq<Number>)
    | TimeIs(cmp: BinOp, from: Time, to: Time)
    | Negation(f: Filter)
    | Both(f: Filter, g: Filter)
    | Either(f: Filter, g: Filter)

  // ---------- how it is spelled ----------

  const DATA := Ident(TAny, "data", None)
  const ANNOTATIONS := Ident(TStringMap, "annotations", None)
  const SUMMARY := Ident(TSummary, "summary", None)

  function PathExpr(path: seq<Step>): Expr {
    if path == [] then DATA
    else
      var base := PathExpr(path[..|path| - 1]);
      match path[|path| - 1]
      case Dot(name) => Select(TDyn, base, name, false)
      case At(key) => Index(TDyn, base, Quoted(key))
      case Nth(i) => Index(TDyn, base, Const(TInt, IntConst(i)))
  }

  function ValueExpr(first: Step, rest: seq<Step>, field: string): Expr {
    Select(TDyn, PathExpr([first] + rest), field, false)
  }

  function ColumnName(col: TextColumn): string {
    match col
    case ParentCol => "parent"
    case UidCol => "uid"
    case NameCol => "name"
    case ResultNameCol => "result_name"
    case TypeCol => "data_type"
  }

  function PieceExpr(p: Piece): Expr {
    match p
    case Literal(s) => Quoted(s)
    case Named(name, s) => Ident(TString, name, Some(StringConst(s)))
    case Column(col) => Ident(TString, ColumnName(col), None)
    case SummaryRecord => Select(TString, SUMMARY, "record", false)
    case SummaryType => Select(TString, SUMMARY, "type", false)
    case Value(first, rest, field) => ValueExpr(first, rest, field)
  }

  /** A sum is a string if one of its operands is known to be one. */
  predicate IsText(s: Sum) {
    match s
    case Leaf(piece) => !piece.Value?
    case Plus(left, right) => IsText(left) || IsText(right)
  }

  function SumExpr(s: Sum): Expr {
    match s
    case Leaf(piece) => PieceExpr(piece)
    case Plus(left, right) => Binary(if IsText(s) then TString else TDyn, Add, SumExpr(left), SumExpr(right))
  }

  function TextExpr(t: Text): Expr {
    match t
    case Joined(sum) => SumExpr(sum)
    case Keyed(first, rest, field, key) => Index(TDyn, ValueExpr(first, rest, field), Quoted(key))
    case Annotation(key) => Index(TString, ANNOTATIONS, Quoted(key))
    case DataKey(key) => Index(TDyn, DATA, Quoted(key))
  }

  function TimeExpr(t: Time): Expr {
    match t
    case Created => Ident(TTimestamp, "create_time", None)
    case Updated => Ident(TTimestamp, "update_time", None)
    case Started => Select(TTimestamp, SUMMARY, "start_time", false)
    case Ended => Select(TTimestamp, SUMMARY, "end_time", false)
    case Parsed(piece) => ToTimestamp(TTimestamp, PieceExpr(piece))
    case Dynamic(first, rest, field) => ValueExpr(first, rest, field)
  }

  function NumberExpr(n: Number): Expr {
    match n
    case Int(i) => Const(TInt, IntConst(i))
    case NamedInt(name, i) => Ident(TInt, name, Some(IntConst(i)))
    case Status => Select(TInt, SUMMARY, "status", false)
    case Part(get, time) => TimeCall(TInt, get, TimeExpr(time), None)
    case Calc(op, left, right) => Binary(TInt, op, NumberExpr(left), NumberExpr(right))
  }

  function EntryExpr(entries: Entries, key: string): Expr {
    match entries
    case Annotations => Index(TString, ANNOTATIONS, Quoted(key))
    case SummaryAnnotations => Index(TString, Select(TStringMap, SUMMARY, "annotations", false), Quoted(key))
    case Data => Index(TDyn, DATA, Quoted(key))
  }

  function TextExprs(ts: seq<Text>): (es: seq<Expr>)
    ensures |es| == |ts| && forall i :: 0 <= i < |ts| ==> es[i] == TextExpr(ts[i])
  {
    seq(|ts|, i requires 0 <= i < |ts| => TextExpr(ts[i]))
  }

  function NumberExprs(ns: seq<Number>): (es: seq<Expr>)
    ensures |es| == |ns| && forall i :: 0 <= i < |ns| ==> es[i] == NumberExpr(ns[i])
  {
    seq(|ns|, i requires 0 <= i < |ns| => NumberExpr(ns[i]))
  }

  function FilterExpr(f: Filter): Expr {
    match f
    case EntryIs(entries, key, value, false) => Binary(TBool, Eq, EntryExpr(entries, key), Quoted(value))
    case EntryIs(entries, key, value, true) => Binary(TBool, Eq, Quoted(value), EntryExpr(entries, key))
    case TextIs(equal, left, right) => Binary(TBool, if equal then Eq else Ne, TextExpr(left), TextExpr(right))
    case TextHas(fn, target, arg) => TextCall(TBool, fn, TextExpr(target), TextExpr(arg))
    case TextIn(text, choices) => Binary(TBool, In, TextExpr(text), ListLit(TList, TextExprs(choices)))
    case NumberIs(cmp, x, y) => Binary(TBool, cmp, NumberExpr(x), NumberExpr(y))
    case NumberIn(number, numbers) => Binary(TBool, In, NumberExpr(number), ListLit(TList, NumberExprs(numbers)))
    case TimeIs(cmp, from, to) => Binary(TBool, cmp, TimeExpr(from), TimeExpr(to))
    case Negation(g) => Not(TBool, FilterExpr(g))
    case Both(g, h) => Binary(TBool, And, FilterExpr(g), FilterExpr(h))
    case Either(g, h) => Binary(TBool, Or, FilterExpr(g), FilterExpr(h))
  }

  // ---------- which filters, which rows ----------

  predicate TextOk(t: Text) { t.Joined? && t.sum.Plus? ==> IsText(t.sum) }

  predicate NumberOk(n: Number) {
    n.Calc? ==> IsArithmetic(n.op) && NumberOk(n.left) && NumberOk(n.right)
  }

  /**
   The filters of the grammar: a sum has some operand known to be text, lists are not empty, the argument of endsWith
   and matches is no plain index, and dynamic data is compared with a time, not with other data as times.
   */
  predicate FilterOk(f: Filter) {
    match f
    case EntryIs(_, _, _, _) => true
    case TextIs(_, left, right) => TextOk(left) && TextOk(right)
    case TextHas(fn, target, arg) =>
      TextOk(target) && TextOk(arg) && (fn.EndsWith? || fn.Matches? ==> !arg.Annotation? && !arg.DataKey?)
    case TextIn(text, choices) => TextOk(text) && choices != [] && forall i :: 0 <= i < |choices| ==> TextOk(choices[i])
    case NumberIs(cmp, x, y) => IsComparison(cmp) && NumberOk(x) && NumberOk(y)
    case NumberIn(number, numbers) =>
      NumberOk(number) && numbers != [] && forall i :: 0 <= i < |numbers| ==> NumberOk(numbers[i])
    case TimeIs(cmp, from, to) => IsComparison(cmp) && !(from.Dynamic? && to.Dynamic?)
    case Negation(g) => FilterOk(g)
    case Both(g, h) => FilterOk(g) && FilterOk(h)
    case Either(g, h) => FilterOk(g) && FilterOk(h)
  }

  /** A summary time is set, and text taken for a time parses. */
  predicate TimeFits(w: World, row: Row, t: Time) {
    match t
    case Started => row.summary.start.Some?
    case Ended => row.summary.end.Some?
    case Parsed(piece) => CastFits(w, Eval(w, row, PieceExpr(piece)))
    case Dynamic(_, _, _) => CastFits(w, Eval(w, row, TimeExpr(t)))
    case _ => true
  }

  predicate NumberFits(w: World, row: Row, n: Number) {
    match n
    case Part(_, time) => TimeFits(w, row, time)
    case Calc(op, left, right) =>
      && NumberFits(w, row, left) && NumberFits(w, row, right)
      && (op.Div? || op.Mod? ==> DivisorFits(Eval(w, row, NumberExpr(right))))
    case _ => true
  }

  /**
   What a row must be like: texts fare like the values they stand for, times are there, divisors are not zero, and
   patterns have no wildcard.
   */
  predicate Fits(w: World, row: Row, f: Filter) {
    match f
    case EntryIs(_, _, _, _) => true
    case TextIs(_, left, right) => TextsFit(w, Eval(w, row, TextExpr(left)), Eval(w, row, TextExpr(right)))
    case TextHas(fn, _, arg) =>
      var v := Eval(w, row, TextExpr(arg)); (fn.StartsWith? || fn.EndsWith?) && v.VStr? ==> Plain(v.s)
    case TextIn(text, choices) =>
      forall i :: 0 <= i < |choices| ==> TextsFit(w, Eval(w, row, TextExpr(text)), Eval(w, row, TextExpr(choices[i])))
    case NumberIs(_, x, y) => NumberFits(w, row, x) && NumberFits(w, row, y)
    case NumberIn(number, numbers) =>
      NumberFits(w, row, number) && forall i :: 0 <= i < |numbers| ==> NumberFits(w, row, numbers[i])
    case TimeIs(cmp, from, to) =>
      && TimeFits(w, row, from) && TimeFits(w, row, to)
      && (w.lang.Cel? && IsEquality(cmp) ==>
            && (from.Dynamic? ==> InstantsDiffer(w, Eval(w, row, TimeExpr(from)), Eval(w, row, TimeExpr(to))))
            && (to.Dynamic? ==> InstantsDiffer(w, Eval(w, row, TimeExpr(to)), Eval(w, row, TimeExpr(from)))))
    case Negation(g) => Fits(w, row, g)
    case Both(g, h) => Fits(w, row, g) && Fits(w, row, h)
    case Either(g, h) => Fits(w, row, g) && Fits(w, row, h)
  }

  // ---------- the grammar lies in the fragment ----------

  /** The expression is translated without loss and keeps its value. */
  predicate Kept(e: Expr) { Supported(e) && Readable(e) }

  lemma {:induction false} PathIsChain(path: seq<Step>)
    ensures DataChain(PathExpr(path)) && ConstantChain(PathExpr(path))
    ensures path != [] ==> PathExpr(path).ty.TDyn?
  {
    if path != [] { PathIsChain(path[..|path| - 1]); }
  }

  lemma ValueIsKept(first: Step, rest: seq<Step>, field: string)
    ensures Kept(ValueExpr(first, rest, field)) && DataChain(ValueExpr(first, rest, field))
  {
    PathIsChain([first] + rest);
  }

  lemma PieceIsKept(p: Piece)
    ensures Kept(PieceExpr(p)) && !IsCall(PieceExpr(p)) && Shape(PieceExpr(p)) == 9
    ensures PieceExpr(p).ty == if p.Value? then TDyn else TString
  {
    if p.Value? { ValueIsKept(p.first, p.rest, p.field); }
  }

  lemma {:induction false} SumIsKept(bound: Expr, s: Sum)
    requires SumExpr(s) == bound || SumExpr(s) < bound
    requires SumExpr(s) == bound ==> s.Plus?
    ensures SumExpr(s).ty == if IsText(s) then TString else TDyn
    ensures SupportedSum(bound, SumExpr(s)) && ReadableSum(bound, SumExpr(s))
    decreases s
  {
    match s
    case Leaf(piece) => PieceIsKept(piece);
    case Plus(left, right) =>
      SumIsKept(bound, left);
      SumIsKept(bound, right);
  }

  lemma SumTyped(s: Sum)
    ensures SumExpr(s).ty == if IsText(s) then TString else TDyn
  {
    if s.Leaf? { PieceIsKept(s.piece); }
  }

  lemma TextIsKept(t: Text)
    requires TextOk(t)
    ensures Kept(TextExpr(t)) && TextTy(TextExpr(t).ty) && Shape(TextExpr(t)) >= 5
    ensures !t.Annotation? && !t.DataKey? ==> Shape(TextExpr(t)) == 9
  {
    match t
    case Joined(Leaf(piece)) => PieceIsKept(piece);
    case Joined(Plus(left, right)) =>
      SumIsKept(SumExpr(t.sum), t.sum);
      SumTyped(left);
      SumTyped(right);
    case Keyed(first, rest, field, key) =>
      PathIsChain([first] + rest);
      ValueIsKept(first, rest, field);
    case _ =>
  }

  lemma TimeIsKept(t: Time)
    ensures Kept(TimeExpr(t)) && Shape(TimeExpr(t)) >= 8
    ensures TimeExpr(t).ty == (if t.Dynamic? then TDyn else TTimestamp) && !TimeExpr(t).Index?
  {
    match t
    case Parsed(piece) => PieceIsKept(piece);
    case Dynamic(first, rest, field) => ValueIsKept(first, rest, field);
    case _ =>
  }

  /** An infix operator between operands that bind tightly enough, of types it takes. */
  lemma InfixIsKept(e: Expr)
    requires e.Binary? && Kept(e.left) && Kept(e.right) && !e.op.Eq? && !e.op.In? && !IsConcat(e)
    requires OperandFits(e.left, e.right, Needs(e.op)) && OperandFits(e.right, e.left, Needs(e.op))
    requires match e.op
      case And | Or => e.ty.TBool? && e.left.ty.TBool? && e.right.ty.TBool?
      case Ne => e.ty.TBool? && Equatable(e.left.ty, e.right.ty)
      case Lt | Le | Gt | Ge => e.ty.TBool? && Orderable(e.left.ty, e.right.ty)
      case Add | Sub | Mul | Div | Mod => e.ty.TInt? && e.left.ty.TInt? && e.right.ty.TInt?
      case _ => false
    ensures Kept(e) && Shape(e) == 9
  {
  }

  /** Equality where neither side is an index: nothing but an infix operator is to be written. */
  lemma EqualityIsKept(e: Expr)
    requires e.Binary? && Kept(e.left) && Kept(e.right) && e.op.Eq? && !e.left.Index? && !e.right.Index?
    requires OperandFits(e.left, e.right, Needs(e.op)) && OperandFits(e.right, e.left, Needs(e.op))
    requires e.ty.TBool? && Equatable(e.left.ty, e.right.ty)
    ensures Kept(e) && Shape(e) == 9
  {
  }

  lemma {:induction false} NumberIsKept(n: Number)
    requires NumberOk(n)
    ensures Kept(NumberExpr(n)) && NumberExpr(n).ty.TInt? && Shape(NumberExpr(n)) == 9 && !NumberExpr(n).Index?
  {
    match n
    case Part(_, time) => TimeIsKept(time);
    case Calc(_, left, right) =>
      NumberIsKept(left);
      NumberIsKept(right);
      InfixIsKept(NumberExpr(n));
    case _ => NumberIsAtom(n);
  }

  lemma NumberIsAtom(n: Number)
    requires !n.Calc? && !n.Part?
    ensures Kept(NumberExpr(n)) && NumberExpr(n).ty.TInt? && Shape(NumberExpr(n)) == 9 && !NumberExpr(n).Index?
  {
  }

  lemma EntryIsKept(f: Filter)
    requires f.EntryIs?
    ensures Kept(FilterExpr(f)) && Shape(FilterExpr(f)) >= 2
  {
  }

  lemma {:induction false} TextIsIsKept(f: Filter)
    requires f.TextIs? && FilterOk(f)
    ensures Kept(FilterExpr(f)) && Shape(FilterExpr(f)) >= 2
  {
    TextIsKept(f.left);
    TextIsKept(f.right);
    var e := FilterExpr(f);
    if !f.equal { InfixIsKept(e); } else if !e.left.Index? && !e.right.Index? { EqualityIsKept(e); }
  }

  lemma TextInIsKept(f: Filter)
    requires f.TextIn? && FilterOk(f)
    ensures Kept(FilterExpr(f)) && Shape(FilterExpr(f)) >= 2
  {
    TextIsKept(f.text);
    forall i | 0 <= i < |f.choices| ensures Kept(TextExpr(f.choices[i])) && TextTy(TextExpr(f.choices[i]).ty) {
      TextIsKept(f.choices[i]);
    }
  }

  lemma NumberInIsKept(f: Filter)
    requires f.NumberIn? && FilterOk(f)
    ensures Kept(FilterExpr(f)) && Shape(FilterExpr(f)) >= 2
  {
    NumberIsKept(f.number);
    forall i | 0 <= i < |f.numbers| ensures Kept(NumberExpr(f.numbers[i])) && NumberExpr(f.numbers[i]).ty.TInt? {
      NumberIsKept(f.numbers[i]);
    }
  }

  lemma TextHasIsKept(f: Filter)
    requires f.TextHas? && FilterOk(f)
    ensures Kept(FilterExpr(f)) && Shape(FilterExpr(f)) >= 2
  {
    TextIsKept(f.target);
    TextIsKept(f.arg);
  }

  lemma NumberIsIsKept(f: Filter)
    requires f.NumberIs? && FilterOk(f)
    ensures Kept(FilterExpr(f)) && Shape(FilterExpr(f)) >= 2
  {
    NumberIsKept(f.x);
    NumberIsKept(f.y);
    if f.cmp.Eq? { EqualityIsKept(FilterExpr(f)); } else { InfixIsKept(FilterExpr(f)); }
  }

  lemma TimeIsIsKept(f: Filter)
    requires f.TimeIs? && FilterOk(f)
    ensures Kept(FilterExpr(f)) && Shape(FilterExpr(f)) >= 2
  {
    TimeIsKept(f.from);
    TimeIsKept(f.to);
    if f.cmp.Eq? { EqualityIsKept(FilterExpr(f)); } else { InfixIsKept(FilterExpr(f)); }
  }

  /** Every filter of the grammar is in the fragment the preservation theorem is about. */
  lemma {:induction false} GrammarIsKept(f: Filter)
    requires FilterOk(f)
    ensures Kept(FilterExpr(f)) && FilterExpr(f).ty.TBool? && Shape(FilterExpr(f)) >= 2
  {
    match f
    case EntryIs(_, _, _, _) => EntryIsKept(f);
    case TextIs(_, _, _) => TextIsIsKept(f);
    case TextHas(_, _, _) => TextHasIsKept(f);
    case TextIn(_, _) => TextInIsKept(f);
    case NumberIs(_, _, _) => NumberIsIsKept(f);
    case NumberIn(_, _) => NumberInIsKept(f);
    case TimeIs(_, _, _) => TimeIsIsKept(f);
    case Negation(g) => GrammarIsKept(g);
    case Both(g, h) =>
      GrammarIsKept(g);
      GrammarIsKept(h);
      InfixIsKept(FilterExpr(f));
    case Either(g, h) =>
      GrammarIsKept(g);
      GrammarIsKept(h);
      InfixIsKept(FilterExpr(f));
  }

  // ---------- a row that fits the filter fits its expression ----------

  lemma PieceFitsRow(w: World, row: Row, p: Piece)
    ensures RowFits(w, row, PieceExpr(p))
  {
    if p.Value? { ValueIsKept(p.first, p.rest, p.field); }
  }

  lemma TextFitsRow(w: World, row: Row, t: Text)
    requires TextOk(t)
    ensures RowFits(w, row, TextExpr(t))
  {
    match t
    case Joined(Leaf(piece)) => PieceFitsRow(w, row, piece);
    case Joined(Plus(left, right)) =>
      SumTyped(left);
      SumTyped(right);
    case _ =>
  }

  lemma TimeFitsRow(w: World, row: Row, t: Time)
    requires TimeFits(w, row, t)
    ensures RowFits(w, row, TimeExpr(t))
  {
    match t
    case Parsed(piece) => PieceFitsRow(w, row, piece);
    case Dynamic(first, rest, field) => ValueIsKept(first, rest, field);
    case _ =>
  }

  lemma {:induction false} NumberFitsRow(w: World, row: Row, n: Number)
    requires NumberOk(n) && NumberFits(w, row, n)
    ensures RowFits(w, row, NumberExpr(n))
  {
    match n
    case Part(_, time) => TimeFitsRow(w, row, time);
    case Calc(_, left, right) =>
      NumberFitsRow(w, row, left);
      NumberFitsRow(w, row, right);
      NumberIsKept(left);
      NumberIsKept(right);
    case _ =>
  }

  /** A comparison of operands that fit, whichever way it is written. */
  lemma {:induction false} ComparisonFits(w: World, row: Row, e: Expr)
    requires e.Binary? && IsComparison(e.op) && RowFits(w, row, e.left) && RowFits(w, row, e.right)
    requires OperandFitsRow(w, row, e.left, e.right) && OperandFitsRow(w, row, e.right, e.left)
    requires IsEquality(e.op) ==> EqualityFits(w, row, e.left, e.right)
    ensures RowFits(w, row, e)
  {
  }

  lemma TextIsFits(w: World, row: Row, f: Filter)
    requires f.TextIs? && FilterOk(f) && Fits(w, row, f)
    ensures RowFits(w, row, FilterExpr(f))
  {
    TextIsKept(f.left);
    TextIsKept(f.right);
    TextFitsRow(w, row, f.left);
    TextFitsRow(w, row, f.right);
    ComparisonFits(w, row, FilterExpr(f));
  }

  lemma TextHasFits(w: World, row: Row, f: Filter)
    requires f.TextHas? && FilterOk(f) && Fits(w, row, f)
    ensures RowFits(w, row, FilterExpr(f))
  {
    TextFitsRow(w, row, f.target);
    TextFitsRow(w, row, f.arg);
  }

  lemma TextInFits(w: World, row: Row, f: Filter)
    requires f.TextIn? && FilterOk(f) && Fits(w, row, f)
    ensures RowFits(w, row, FilterExpr(f))
  {
    TextFitsRow(w, row, f.text);
    forall i | 0 <= i < |f.choices| ensures RowFits(w, row, TextExpr(f.choices[i])) { TextFitsRow(w, row, f.choices[i]); }
  }

  lemma NumberIsFits(w: World, row: Row, f: Filter)
    requires f.NumberIs? && FilterOk(f) && Fits(w, row, f)
    ensures RowFits(w, row, FilterExpr(f))
  {
    NumberIsKept(f.x);
    NumberIsKept(f.y);
    NumberFitsRow(w, row, f.x);
    NumberFitsRow(w, row, f.y);
    ComparisonFits(w, row, FilterExpr(f));
  }

  lemma NumberInFits(w: World, row: Row, f: Filter)
    requires f.NumberIn? && FilterOk(f) && Fits(w, row, f)
    ensures RowFits(w, row, FilterExpr(f))
  {
    NumberIsKept(f.number);
    NumberFitsRow(w, row, f.number);
    forall i | 0 <= i < |f.numbers| ensures RowFits(w, row, NumberExpr(f.numbers[i])) { NumberFitsRow(w, row, f.numbers[i]); }
  }

  lemma {:induction false} TimeIsFits(w: World, row: Row, f: Filter)
    requires f.TimeIs? && FilterOk(f) && Fits(w, row, f)
    ensures RowFits(w, row, FilterExpr(f))
  {
    TimeIsKept(f.from);
    TimeIsKept(f.to);
    TimeFitsRow(w, row, f.from);
    TimeFitsRow(w, row, f.to);
    ComparisonFits(w, row, FilterExpr(f));
  }

  lemma {:induction false} GrammarFits(w: World, row: Row, f: Filter)
    requires FilterOk(f) && Fits(w, row, f)
    ensures RowFits(w, row, FilterExpr(f))
  {
    match f
    case EntryIs(_, _, _, _) =>
    case TextIs(_, _, _) => TextIsFits(w, row, f);
    case TextHas(_, _, _) => TextHasFits(w, row, f);
    case TextIn(_, _) => TextInFits(w, row, f);
    case NumberIs(_, _, _) => NumberIsFits(w, row, f);
    case NumberIn(_, _) => NumberInFits(w, row, f);
    case TimeIs(_, _, _) => TimeIsFits(w, row, f);
    case Negation(g) => GrammarFits(w, row, g);
    case Both(g, h) =>
      GrammarFits(w, row, g);
      GrammarFits(w, row, h);
      BothFit(w, row, g, h, And);
    case Either(g, h) =>
      GrammarFits(w, row, g);
      GrammarFits(w, row, h);
      BothFit(w, row, g, h, Or);
  }

  lemma BothFit(w: World, row: Row, g: Filter, h: Filter, op: BinOp)
    requires FilterOk(g) && RowFits(w, row, FilterExpr(g)) && FilterOk(h) && RowFits(w, row, FilterExpr(h))
    requires op.And? || op.Or?
    ensures RowFits(w, row, Binary(TBool, op, FilterExpr(g), FilterExpr(h)))
  {
    GrammarIsKept(g);
    GrammarIsKept(h);
  }

  // ---------- the theorem ----------

  /**
   Every filter of the grammar is accepted and translated, PostgreSQL can read what is written, and on every row that fits the
   statement does not fail and says true where CEL does and false where CEL does.
   */
  lemma GrammarSelectsTheSameRows(w: World, row: Row, f: Filter)
    requires FilterOk(f) && Fits(w, row, f)
    ensures BooleanAssignable(FilterExpr(f).ty) && Emit(FilterExpr(f)).Ok? && ReadFilter(Emit(FilterExpr(f)).toks).Some?
    ensures var q := ReadFilter(Emit(FilterExpr(f)).toks).value; var v := Eval(w, row, FilterExpr(f));
      EvalSql(w, row, q) != Bad && (v.VBool? ==> EvalSql(w, row, q) == B(v.b))
  {
    GrammarIsKept(f);
    GrammarFits(w, row, f);
    FilterSelectsTheSameRows(w, row, FilterExpr(f));
  }

  /** The map behind a filter on annotations. */
  function StoredEntries(row: Row, entries: Entries): map<string, string>
    requires !entries.Data?
  {
    if entries.Annotations? then row.annotations else row.summary.annotations
  }

  /**
   An annotation of a Result or of its summary compared with a literal, on either side, keeps on every row exactly
   the rows that have that annotation with that value; CEL says the same wherever the annotation is there at all.
   */
  lemma EntryFilterIsExact(w: World, row: Row, entries: Entries, key: string, value: string, literalFirst: bool)
    requires !entries.Data?
    ensures var e := FilterExpr(EntryIs(entries, key, value, literalFirst)); var m := StoredEntries(row, entries);
      && Supported(e) && Readable(e) && Emit(e).Ok? && ReadFilter(Emit(e).toks).Some?
      && EvalSql(w, row, ReadFilter(Emit(e).toks).value) == B(key in m && m[key] == value)
      && Eval(w, row, e) == if key in m then VBool(m[key] == value) else VErr
  {
    var f := EntryIs(entries, key, value, literalFirst);
    GrammarIsKept(f);
    ReadBack(FilterExpr(f));
    EntryMeans(w, row, f);
    EntryEvaluates(w, row, f);
  }

  lemma IndexedVal(w: World, row: Row, entries: Entries, key: string)
    requires !entries.Data?
    ensures Eval(w, row, EntryExpr(entries, key)) == IndexVal(VMap(StoredEntries(row, entries)), VStr(key))
  {
    EntryBase(w, row, entries, key);
  }

  lemma EntryEvaluates(w: World, row: Row, f: Filter)
    requires f.EntryIs? && !f.entries.Data?
    ensures var m := StoredEntries(row, f.entries);
      Eval(w, row, FilterExpr(f)) == if f.key in m then VBool(m[f.key] == f.value) else VErr
  {
    IndexedVal(w, row, f.entries, f.key);
    assert Eval(w, row, Quoted(f.value)) == VStr(f.value);
  }

  lemma EntryBase(w: World, row: Row, entries: Entries, key: string)
    requires !entries.Data?
    ensures var m := StoredEntries(row, entries); var base := EntryExpr(entries, key).base;
      Eval(w, row, base) == VMap(m) && EvalSql(w, row, Meaning(base)) == J(MapJson(m))
  {
    var base := EntryExpr(entries, key).base;
    if entries.SummaryAnnotations? { SummaryMapVal(w, row, base); } else { assert Meaning(base) == Col("annotations"); }
  }

  lemma PairVal(w: World, row: Row, key: string, value: string)
    ensures EvalSql(w, row, ObjectLiteral(Quoted(key), Quoted(value))) == J(JObj(map[key := JStr(value)]))
  {
  }

  lemma EntryMeaning(f: Filter)
    requires f.EntryIs?
    ensures Meaning(FilterExpr(f))
         == Bin(ContainsOp, Meaning(EntryExpr(f.entries, f.key).base), ObjectLiteral(Quoted(f.key), Quoted(f.value)))
  {
  }

  lemma EntryMeans(w: World, row: Row, f: Filter)
    requires f.EntryIs? && !f.entries.Data?
    ensures var m := StoredEntries(row, f.entries);
      EvalSql(w, row, Meaning(FilterExpr(f))) == B(f.key in m && m[f.key] == f.value)
  {
    var m := StoredEntries(row, f.entries);
    EntryMeaning(f);
    EntryBase(w, row, f.entries, f.key);
    PairVal(w, row, f.key, f.value);
    BinVal(w, row, ContainsOp, Meaning(EntryExpr(f.entries, f.key).base), ObjectLiteral(Quoted(f.key), Quoted(f.value)));
    ContainsEntry(MapJson(m), f.key, f.value);
  }
}
