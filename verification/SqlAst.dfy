/** The part of PostgreSQL's expression language the translator writes: trees and tokens. */
module SqlAst {
  datatype SqlOp =
    | OrOp | AndOp
    | EqOp | NeOp | LtOp | LeOp | GtOp | GeOp
    | LikeOp
    | ConcatOp | ArrowOp | ArrowTextOp | ContainsOp | RegexOp
    | AddOp | SubOp
    | MulOp | DivOp | ModOp

  datatype SqlLit =
    | LNull
    | LBool(b: bool)
    | LInt(i: int)
    | LReal(r: real)
    | LText(s: string)
    | LObject(key: string, value: string)  // '{"key":"value"}'
    | LSeconds(n: int)                     // 'n SECONDS'
    | LTimestamp(t: int)                   // TIMESTAMP WITH TIME ZONE '...'

  datatype SqlType = TimestampTz | Jsonb

  datatype DateField = Day | Dow | Doy | Year

  datatype Sql =
    | Col(name: string)
    | Lit(lit: SqlLit)
    | Bin(op: SqlOp, left: Sql, right: Sql)
    | SNot(arg: Sql)
    | Cast(arg: Sql, to: SqlType)
    | Position(needle: Sql, hay: Sql)
    | Extract(field: DateField, arg: Sql)
    | ConcatCall(args: seq<Sql>)
    | InList(arg: Sql, elems: seq<Sql>)

  datatype Token =
    | TWord(name: string)
    | TLit(lit: SqlLit)
    | TOp(op: SqlOp)
    | TNot
    | TIn
    | TCast(to: SqlType)
    | TPosition
    | TExtract
    | TField(field: DateField)
    | TFrom
    | TConcat
    | TLPar
    | TRPar
    | TComma

  const LAST_LEVEL := 9

  /** Section 4.1.6 of the PostgreSQL manual: a larger level binds tighter; NOT has level 2, :: has level 8. */
  function OpLevel(op: SqlOp): nat {
    match op
    case OrOp => 0
    case AndOp => 1
    case EqOp | NeOp | LtOp | LeOp | GtOp | GeOp => 3
    case LikeOp => 4
    case ConcatOp | ArrowOp | ArrowTextOp | ContainsOp | RegexOp => 5
    case AddOp | SubOp => 6
    case MulOp | DivOp | ModOp => 7
  }

  /** The level at which a token can continue the expression to its left; -1 if it cannot. */
  function ContinueLevel(t: Token): int {
    match t
    case TOp(op) => OpLevel(op)
    case TIn => 4
    case TCast(_) => 8
    case _ => -1
  }
}
