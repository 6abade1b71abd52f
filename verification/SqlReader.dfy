/** PostgreSQL's reading of a token string: precedence and associativity of section 4.1.6 of its manual. */
module SqlReader {
  import opened Prelude
  import opened SqlAst

  datatype Read<+T> = Fail | Got(tree: T, rest: seq<Token>)

  function Level(ts: seq<Token>): int {
    if ts == [] then -1 else ContinueLevel(ts[0])
  }

  predicate Next(ts: seq<Token>, t: Token) { ts != [] && ts[0] == t }

  /** An expression all of whose outermost operators bind at least as tightly as `level`. */
  function Parse(level: nat, ts: seq<Token>): (r: Read<Sql>)
    requires level <= LAST_LEVEL
    ensures r.Got? ==> |r.rest| < |ts|
    decreases |ts|, 2, LAST_LEVEL - level
  {
    if level == 9 then Primary(ts)
    else if level == 2 then
      if Next(ts, TNot) then
        var arg := Parse(2, ts[1..]);
        if arg.Fail? then Fail else Got(SNot(arg.tree), arg.rest)
      else Parse(3, ts)
    else
      var left := Parse(level + 1, ts);
      if left.Fail? then Fail
      else if level == 3 || level == 4 then Once(level, left.tree, left.rest)
      else Climb(level, left.tree, left.rest)
  }

  /** Left-associative operators of one level, and casts. */
  function Climb(level: nat, left: Sql, ts: seq<Token>): (r: Read<Sql>)
    requires level in {0, 1, 5, 6, 7, 8}
    ensures r.Got? ==> |r.rest| <= |ts|
    decreases |ts|, 1
  {
    if Level(ts) != level then Got(left, ts)
    else if ts[0].TCast? then Climb(level, Cast(left, ts[0].to), ts[1..])
    else if ts[0].TOp? then
      var right := Parse(level + 1, ts[1..]);
      if right.Fail? then Fail
      else Climb(level, Bin(ts[0].op, left, right.tree), right.rest)
    else Fail
  }

  /** Comparisons, LIKE and IN: at most one, not associative. */
  function Once(level: nat, left: Sql, ts: seq<Token>): (r: Read<Sql>)
    requires level == 3 || level == 4
    ensures r.Got? ==> |r.rest| <= |ts|
    decreases |ts|, 1
  {
    if Level(ts) != level then Got(left, ts)
    else if ts[0].TIn? then
      if !Next(ts[1..], TLPar) then Fail
      else
        var elems := List(ts[2..]);
        if elems.Fail? || !Next(elems.rest, TRPar) || Level(elems.rest[1..]) == level then Fail
        else Got(InList(left, elems.tree), elems.rest[1..])
    else if ts[0].TOp? then
      var right := Parse(level + 1, ts[1..]);
      if right.Fail? || Level(right.rest) == level then Fail
      else Got(Bin(ts[0].op, left, right.tree), right.rest)
    else Fail
  }

  /** One or more expressions separated by commas. */
  function List(ts: seq<Token>): (r: Read<seq<Sql>>)
    ensures r.Got? ==> |r.rest| < |ts| && r.tree != []
    decreases |ts|, 3
  {
    var head := Parse(0, ts);
    if head.Fail? then Fail
    else if !Next(head.rest, TComma) then Got([head.tree], head.rest)
    else
      var tail := List(head.rest[1..]);
      if tail.Fail? then Fail else Got([head.tree] + tail.tree, tail.rest)
  }

  function Primary(ts: seq<Token>): (r: Read<Sql>)
    ensures r.Got? ==> |r.rest| < |ts|
    decreases |ts|, 0
  {
    if ts == [] then Fail
    else
      match ts[0]
      case TWord(name) => Got(Col(name), ts[1..])
      case TLit(l) => Got(Lit(l), ts[1..])
      case TLPar => Closed(Parse(0, ts[1..]))
      case TPosition => if Next(ts[1..], TLPar) then PositionCall(ts[2..]) else Fail
      case TExtract =>
        if |ts| > 3 && ts[1] == TLPar && ts[2].TField? && ts[3] == TFrom then
          var arg := Closed(Parse(0, ts[4..]));
          if arg.Fail? then Fail else Got(Extract(ts[2].field, arg.tree), arg.rest)
        else Fail
      case TConcat =>
        if !Next(ts[1..], TLPar) then Fail
        else
          var args := List(ts[2..]);
          if args.Fail? || !Next(args.rest, TRPar) then Fail
          else Got(ConcatCall(args.tree), args.rest[1..])
      case _ => Fail
  }

  /** needle IN hay ), after POSITION( has been read. */
  function PositionCall(ts: seq<Token>): (r: Read<Sql>)
    ensures r.Got? ==> |r.rest| < |ts|
    decreases |ts|, 4
  {
    var needle := Restricted(ts);
    if needle.Fail? || !Next(needle.rest, TIn) then Fail
    else
      var hay := Closed(Restricted(needle.rest[1..]));
      if hay.Fail? then Fail else Got(Position(needle.tree, hay.tree), hay.rest)
  }

  /** PostgreSQL's b_expr: no logical operator, LIKE or IN outside parentheses, and at most one comparison. */
  function Restricted(ts: seq<Token>): (r: Read<Sql>)
    ensures r.Got? ==> |r.rest| < |ts|
    decreases |ts|, 3
  {
    var left := Parse(5, ts);
    if left.Fail? || Level(left.rest) != 3 || !left.rest[0].TOp? then left
    else
      var right := Parse(5, left.rest[1..]);
      if right.Fail? || Level(right.rest) == 3 then Fail
      else Got(Bin(left.rest[0].op, left.tree, right.tree), right.rest)
  }

  /** Consumes the closing parenthesis. */
  function Closed(r: Read<Sql>): (c: Read<Sql>)
    ensures c.Got? ==> r.Got? && c.tree == r.tree && |c.rest| < |r.rest|
  {
    if r.Fail? || !Next(r.rest, TRPar) then Fail else Got(r.tree, r.rest[1..])
  }

  /** A whole filter: every token is used. */
  function ReadFilter(ts: seq<Token>): Option<Sql> {
    var r := Parse(0, ts);
    if r.Got? && r.rest == [] then Some(r.tree) else None
  }

  /** Nothing that starts with NOT is an operand of a comparison or of anything tighter. */
  lemma {:induction false} NotIsLoose(level: nat, ts: seq<Token>)
    requires 3 <= level <= LAST_LEVEL && Next(ts, TNot)
    ensures Parse(level, ts).Fail?
    decreases LAST_LEVEL - level
  {
    if level < LAST_LEVEL {
      NotIsLoose(level + 1, ts);
    }
  }

  /** What one level reads, a looser level reads too, if nothing that follows continues it. */
  lemma {:induction false} Loosen(hi: nat, lo: nat, ts: seq<Token>)
    requires lo <= hi <= LAST_LEVEL
    requires Parse(hi, ts).Got?
    requires !(lo <= Level(Parse(hi, ts).rest) < hi)
    ensures Parse(lo, ts) == Parse(hi, ts)
    decreases hi - lo
  {
    if lo < hi {
      if hi > 2 && Next(ts, TNot) { NotIsLoose(hi, ts); }
      Loosen(hi, lo + 1, ts);
    }
  }

  /** `left op right`, where nothing that follows continues it. */
  lemma InfixStep(level: nat, ts: seq<Token>, left: Sql, op: SqlOp, tail: seq<Token>, right: Sql, rest: seq<Token>)
    requires level <= 7 && level != 2 && OpLevel(op) == level
    requires Parse(level + 1, ts) == Got(left, [TOp(op)] + tail)
    requires Parse(level + 1, tail) == Got(right, rest) && Level(rest) < level
    ensures Parse(level, ts) == Got(Bin(op, left, right), rest)
  {
    var after := [TOp(op)] + tail;
    assert after[1..] == tail;
    assert Level(after) == level;
    if level == 3 || level == 4 {
      assert Once(level, left, after) == Got(Bin(op, left, right), rest);
    } else {
      assert Climb(level, Bin(op, left, right), rest) == Got(Bin(op, left, right), rest);
      assert Climb(level, left, after) == Got(Bin(op, left, right), rest);
    }
  }

  /** One more operator in a left-associative run. */
  lemma ClimbStep(level: nat, left: Sql, op: SqlOp, tail: seq<Token>, right: Sql, rest: seq<Token>)
    requires level in {0, 1, 5, 6, 7} && OpLevel(op) == level
    requires Parse(level + 1, tail) == Got(right, rest)
    ensures Climb(level, left, [TOp(op)] + tail) == Climb(level, Bin(op, left, right), rest)
  {
    var after := [TOp(op)] + tail;
    assert after[1..] == tail;
    assert Level(after) == level;
  }

  lemma CastStep(left: Sql, to: SqlType, rest: seq<Token>)
    ensures Climb(8, left, [TCast(to)] + rest) == Climb(8, Cast(left, to), rest)
  {
    var after := [TCast(to)] + rest;
    assert after[1..] == rest;
    assert Level(after) == 8;
  }

  lemma InStep(ts: seq<Token>, left: Sql, tail: seq<Token>, elems: seq<Sql>, rest: seq<Token>)
    requires Parse(5, ts) == Got(left, [TIn, TLPar] + tail)
    requires List(tail) == Got(elems, [TRPar] + rest) && Level(rest) < 4
    ensures Parse(4, ts) == Got(InList(left, elems), rest)
  {
    var after := [TIn, TLPar] + tail;
    assert after[1..][0] == TLPar;
    assert after[2..] == tail;
    assert ([TRPar] + rest)[1..] == rest;
    assert Once(4, left, after) == Got(InList(left, elems), rest);
  }

  lemma PositionStep(ts: seq<Token>, needle: Sql, tail: seq<Token>, hay: Sql, rest: seq<Token>)
    requires Parse(5, ts) == Got(needle, [TIn] + tail)
    requires Parse(5, tail) == Got(hay, [TRPar] + rest)
    ensures Parse(9, [TPosition, TLPar] + ts) == Got(Position(needle, hay), rest)
  {
    var all := [TPosition, TLPar] + ts;
    assert all[1..][0] == TLPar;
    assert all[2..] == ts;
    assert ([TIn] + tail)[1..] == tail;
    assert ([TRPar] + rest)[1..] == rest;
    assert PositionCall(ts) == Got(Position(needle, hay), rest);
  }

  lemma ExtractStep(field: DateField, ts: seq<Token>, arg: Sql, rest: seq<Token>)
    requires Parse(0, ts) == Got(arg, [TRPar] + rest)
    ensures Parse(9, [TExtract, TLPar, TField(field), TFrom] + ts) == Got(Extract(field, arg), rest)
  {
    var all := [TExtract, TLPar, TField(field), TFrom] + ts;
    assert all[4..] == ts;
    assert ([TRPar] + rest)[1..] == rest;
  }

  lemma ConcatStep(ts: seq<Token>, args: seq<Sql>, rest: seq<Token>)
    requires List(ts) == Got(args, [TRPar] + rest)
    ensures Parse(9, [TConcat, TLPar] + ts) == Got(ConcatCall(args), rest)
  {
    var all := [TConcat, TLPar] + ts;
    assert all[1..][0] == TLPar;
    assert all[2..] == ts;
    assert ([TRPar] + rest)[1..] == rest;
  }

  /** Parenthesised text is a primary expression. */
  lemma GroupStep(ts: seq<Token>, tree: Sql, rest: seq<Token>)
    requires Parse(0, ts) == Got(tree, [TRPar] + rest)
    ensures Parse(9, [TLPar] + ts) == Got(tree, rest)
  {
    assert ([TLPar] + ts)[1..] == ts;
    assert ([TRPar] + rest)[1..] == rest;
  }

  lemma NotStep(ts: seq<Token>, tree: Sql, rest: seq<Token>)
    requires Parse(2, ts) == Got(tree, rest)
    ensures Parse(2, [TNot] + ts) == Got(SNot(tree), rest)
  {
    assert ([TNot] + ts)[1..] == ts;
  }

  lemma ListStep(ts: seq<Token>, head: Sql, tail: seq<Token>, elems: seq<Sql>, rest: seq<Token>)
    requires Parse(0, ts) == Got(head, [TComma] + tail)
    requires List(tail) == Got(elems, rest)
    ensures List(ts) == Got([head] + elems, rest)
  {
    assert ([TComma] + tail)[1..] == tail;
  }

  /** A single word or literal. */
  lemma {:induction false} AtomReads(level: nat, t: Token, rest: seq<Token>)
    requires 5 <= level <= LAST_LEVEL && (t.TWord? || t.TLit?)
    requires Level(rest) < level
    ensures Parse(level, [t] + rest) == Got(if t.TWord? then Col(t.name) else Lit(t.lit), rest)
  {
    assert ([t] + rest)[1..] == rest;
    Loosen(9, level, [t] + rest);
  }

  /** What a tighter level cannot read, a looser one cannot either; only NOT adds something at level 2. */
  lemma {:induction false} FailsLoosely(hi: nat, lo: nat, ts: seq<Token>)
    requires lo <= hi <= LAST_LEVEL && Parse(hi, ts).Fail? && (hi <= 2 || !Next(ts, TNot))
    ensures Parse(lo, ts).Fail?
    decreases hi - lo
  {
    if lo < hi {
      FailsLoosely(hi, lo + 1, ts);
    }
  }

  /** A parenthesis whose contents cannot be read makes the whole filter unreadable. */
  lemma UnreadableGroup(ts: seq<Token>)
    requires Parse(0, ts).Fail?
    ensures ReadFilter([TLPar] + ts) == None
  {
    assert ([TLPar] + ts)[1..] == ts;
    FailsLoosely(9, 0, [TLPar] + ts);
  }

  lemma ReadableGroup(ts: seq<Token>, tree: Sql)
    requires Parse(0, ts) == Got(tree, [TRPar])
    ensures ReadFilter([TLPar] + ts) == Some(tree)
  {
    assert [TRPar] + [] == [TRPar];
    GroupStep(ts, tree, []);
    Loosen(9, 0, [TLPar] + ts);
  }

  /** Two comparisons in a row are a syntax error: comparisons do not associate. */
  lemma ComparisonTwice(ts: seq<Token>, left: Sql, op: SqlOp, tail: seq<Token>)
    requires OpLevel(op) == 3 && Parse(4, ts) == Got(left, [TOp(op)] + tail)
    requires var right := Parse(4, tail); right.Got? ==> Level(right.rest) == 3
    ensures Parse(3, ts).Fail?
  {
    var after := [TOp(op)] + tail;
    assert after[1..] == tail;
    assert Level(after) == 3;
  }
}
