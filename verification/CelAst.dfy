/**
 Type-checked CEL expressions, as the translator in pkg/api/server/cel2sql sees them.
 The checker's type map is folded into the tree: every node carries the type the map
 holds for its id (`TUntyped` when the map has no entry), and an identifier carries the
 constant its reference resolves to, if any.
 */
module CelAst {
  import opened Prelude

  datatype Ty =
    | TBool | TInt | TUint | TDouble | TString | TTimestamp | TDuration | TNull
    | TDyn | TAny | TStringMap | TSummary | TList | TOther | TUntyped

  datatype Const =
    | NullConst
    | BoolConst(b: bool)
    | IntConst(i: int)
    | UintConst(u: nat)
    | DoubleConst(r: real)
    | StringConst(s: string)
    | DurationConst(seconds: int)
    | TimestampConst(t: int)
    | BytesConst

  datatype BinOp = And | Or | Eq | Ne | Lt | Le | Gt | Ge | Add | Sub | Mul | Div | Mod | In

  datatype TextFn = Contains | StartsWith | EndsWith | Matches

  datatype TimeGet = GetDate | GetDayOfMonth | GetDayOfWeek | GetDayOfYear | GetFullYear

  datatype Expr =
    | Const(ty: Ty, c: Const)
    | Ident(ty: Ty, name: string, reference: Option<Const>)
    | Select(ty: Ty, operand: Expr, field: string, testOnly: bool)
    | Not(ty: Ty, arg: Expr)
    | Binary(ty: Ty, op: BinOp, left: Expr, right: Expr)
    | Index(ty: Ty, base: Expr, key: Expr)
    | TextCall(ty: Ty, fn: TextFn, target: Expr, arg: Expr)
    | TimeCall(ty: Ty, get: TimeGet, target: Expr, zone: Option<Expr>)
    | ToTimestamp(ty: Ty, arg: Expr)
    | OtherCall(ty: Ty)    // a function the translator does not list
    | ListLit(ty: Ty, elems: seq<Expr>)
    | OtherExpr(ty: Ty)    // messages, comprehensions

  /** Whether the node is a call expression; operators and indexing are calls in CEL. */
  predicate IsCall(e: Expr) {
    e.Not? || e.Binary? || e.Index? || e.TextCall? || e.TimeCall? || e.ToTimestamp? || e.OtherCall?
  }

  /** `GetConstExpr().GetStringValue()`: the empty string for anything but a string constant. */
  function ConstString(e: Expr): string {
    if e.Const? && e.c.StringConst? then e.c.s else ""
  }
}
