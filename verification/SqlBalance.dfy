/** What PostgreSQL reads is balanced: an expression takes up whole pairs of parentheses. */
module SqlBalance {
  import opened SqlAst
  import opened SqlReader

  function Weight(t: Token): int { if t.TLPar? then 1 else if t.TRPar? then -1 else 0 }

  function Depth(ts: seq<Token>): int {
    if ts == [] then 0 else Weight(ts[0]) + Depth(ts[1..])
  }

  predicate Deep(ts: seq<Token>, n: nat) { n <= |ts| ==> Depth(ts[..n]) >= 0 }

  /** Every parenthesis closes one that is open, and none stays open. */
  ghost predicate Balanced(ts: seq<Token>) {
    Depth(ts) == 0 && forall n: nat :: Deep(ts, n)
  }

  lemma {:induction false} DepthAppends(a: seq<Token>, b: seq<Token>)
    ensures Depth(a + b) == Depth(a) + Depth(b)
  {
    if a == [] {
      assert a + b == b;
    } else {
      assert (a + b)[1..] == a[1..] + b;
      DepthAppends(a[1..], b);
    }
  }

  lemma BalancedAppends(a: seq<Token>, b: seq<Token>)
    requires Balanced(a) && Balanced(b)
    ensures Balanced(a + b)
  {
    DepthAppends(a, b);
    forall n: nat ensures Deep(a + b, n) {
      if n <= |a| {
        assert (a + b)[..n] == a[..n] && Deep(a, n);
      } else if n <= |a + b| {
        assert (a + b)[..n] == a + b[..n - |a|] && Deep(b, n - |a|);
        DepthAppends(a, b[..n - |a|]);
      }
    }
  }

  lemma NeutralIsBalanced(t: Token)
    requires Weight(t) == 0
    ensures Balanced([t])
  {
    assert [t][1..] == [];
    forall n: nat ensures Deep([t], n) { if n == 1 { assert [t][..1] == [t]; } else if n == 0 { assert [t][..0] == []; } }
  }

  lemma GroupIsBalanced(a: seq<Token>)
    requires Balanced(a)
    ensures Balanced([TLPar] + a + [TRPar])
  {
    var g := [TLPar] + a + [TRPar];
    assert [TLPar][1..] == [] && [TRPar][1..] == [];
    DepthAppends([TLPar] + a, [TRPar]);
    DepthAppends([TLPar], a);
    forall n: nat ensures Deep(g, n) {
      if n == 0 {
        assert g[..0] == [];
      } else if n <= |a| + 1 {
        assert g[..n] == [TLPar] + a[..n - 1] && Deep(a, n - 1);
        DepthAppends([TLPar], a[..n - 1]);
      } else if n == |g| {
        assert g[..n] == g;
      }
    }
  }

  // ---------- readings take balanced pieces ----------

  function Used(ts: seq<Token>, rest: seq<Token>): seq<Token> {
    if |rest| <= |ts| then ts[..|ts| - |rest|] else []
  }

  /** `rest` is what is left of `ts` after a balanced piece. */
  ghost predicate Takes(ts: seq<Token>, rest: seq<Token>) {
    |rest| <= |ts| && ts == Used(ts, rest) + rest && Balanced(Used(ts, rest))
  }

  lemma TakesNothing(ts: seq<Token>)
    ensures Takes(ts, ts)
  {
    assert Used(ts, ts) == [];
    forall n: nat ensures Deep([], n) { }
  }

  lemma TakesMore(ts: seq<Token>, mid: seq<Token>, rest: seq<Token>)
    requires Takes(ts, mid) && Takes(mid, rest)
    ensures Takes(ts, rest)
  {
    assert Used(ts, rest) == Used(ts, mid) + Used(mid, rest);
    BalancedAppends(Used(ts, mid), Used(mid, rest));
  }

  lemma TakesOne(ts: seq<Token>)
    requires ts != [] && Weight(ts[0]) == 0
    ensures Takes(ts, ts[1..])
  {
    assert Used(ts, ts[1..]) == [ts[0]];
    NeutralIsBalanced(ts[0]);
  }

  lemma TakesGroup(ts: seq<Token>, rest: seq<Token>)
    requires Next(ts, TLPar) && Takes(ts[1..], rest) && Next(rest, TRPar)
    ensures Takes(ts, rest[1..])
  {
    var inner := Used(ts[1..], rest);
    assert rest == [TRPar] + rest[1..];
    assert ts == [TLPar] + (inner + ([TRPar] + rest[1..]));
    GroupSlices(inner, rest[1..]);
    GroupIsBalanced(inner);
  }

  lemma GroupSlices(inner: seq<Token>, rest: seq<Token>)
    ensures var ts := [TLPar] + (inner + ([TRPar] + rest));
      Used(ts, rest) == [TLPar] + inner + [TRPar] && ts == Used(ts, rest) + rest
  {
    var ts, g := [TLPar] + (inner + ([TRPar] + rest)), [TLPar] + inner + [TRPar];
    assert ts == g + rest;
  }

  lemma {:induction false} ParseTakes(level: nat, ts: seq<Token>)
    requires level <= LAST_LEVEL && Parse(level, ts).Got?
    ensures Takes(ts, Parse(level, ts).rest)
    decreases |ts|, 2, 2 * (LAST_LEVEL - level) + 1
  {
    if level == 9 {
      PrimaryTakes(ts);
    } else if level == 2 {
      NotLevelTakes(ts);
    } else {
      InfixLevelTakes(level, ts);
    }
  }

  lemma {:induction false} NotLevelTakes(ts: seq<Token>)
    requires Parse(2, ts).Got?
    ensures Takes(ts, Parse(2, ts).rest)
    decreases |ts|, 2, 2 * (LAST_LEVEL - 2)
  {
    if Next(ts, TNot) {
      TakesOne(ts);
      ParseTakes(2, ts[1..]);
      TakesMore(ts, ts[1..], Parse(2, ts[1..]).rest);
    } else {
      ParseTakes(3, ts);
    }
  }

  lemma {:induction false} InfixLevelTakes(level: nat, ts: seq<Token>)
    requires level < LAST_LEVEL && level != 2 && Parse(level, ts).Got?
    ensures Takes(ts, Parse(level, ts).rest)
    decreases |ts|, 2, 2 * (LAST_LEVEL - level)
  {
    var left := Parse(level + 1, ts);
    ParseTakes(level + 1, ts);
    if level == 3 || level == 4 {
      OnceTakes(level, left.tree, left.rest);
      TakesMore(ts, left.rest, Once(level, left.tree, left.rest).rest);
    } else {
      ClimbTakes(level, left.tree, left.rest);
      TakesMore(ts, left.rest, Climb(level, left.tree, left.rest).rest);
    }
  }

  lemma {:induction false} ClimbTakes(level: nat, left: Sql, ts: seq<Token>)
    requires level in {0, 1, 5, 6, 7, 8} && Climb(level, left, ts).Got?
    ensures Takes(ts, Climb(level, left, ts).rest)
    decreases |ts|, 1
  {
    if Level(ts) != level {
      TakesNothing(ts);
    } else if ts[0].TCast? {
      TakesOne(ts);
      ClimbTakes(level, Cast(left, ts[0].to), ts[1..]);
      TakesMore(ts, ts[1..], Climb(level, left, ts).rest);
    } else {
      ClimbOnTakes(level, left, ts);
    }
  }

  lemma {:induction false} ClimbOnTakes(level: nat, left: Sql, ts: seq<Token>)
    requires level in {0, 1, 5, 6, 7, 8} && Climb(level, left, ts).Got? && Level(ts) == level && ts[0].TOp?
    ensures Takes(ts, Climb(level, left, ts).rest)
    decreases |ts|, 0, 1
  {
    var right := Parse(level + 1, ts[1..]);
    TakesOne(ts);
    ParseTakes(level + 1, ts[1..]);
    ClimbTakes(level, Bin(ts[0].op, left, right.tree), right.rest);
    TakesThrough(ts, ts[1..], right.rest, Climb(level, Bin(ts[0].op, left, right.tree), right.rest).rest);
  }

  lemma TakesThrough(ts: seq<Token>, a: seq<Token>, b: seq<Token>, rest: seq<Token>)
    requires Takes(ts, a) && Takes(a, b) && Takes(b, rest)
    ensures Takes(ts, rest)
  {
    TakesMore(ts, a, b);
    TakesMore(ts, b, rest);
  }

  lemma {:induction false} OnceTakes(level: nat, left: Sql, ts: seq<Token>)
    requires (level == 3 || level == 4) && Once(level, left, ts).Got?
    ensures Takes(ts, Once(level, left, ts).rest)
    decreases |ts|, 1
  {
    if Level(ts) != level {
      TakesNothing(ts);
    } else {
      TakesOne(ts);
      if ts[0].TIn? {
        var elems := List(ts[2..]);
        assert ts[1..][1..] == ts[2..];
        ListTakes(ts[2..]);
        TakesGroup(ts[1..], elems.rest);
        TakesMore(ts, ts[1..], elems.rest[1..]);
      } else {
        ParseTakes(level + 1, ts[1..]);
        TakesMore(ts, ts[1..], Parse(level + 1, ts[1..]).rest);
      }
    }
  }

  lemma {:induction false} ListTakes(ts: seq<Token>)
    requires List(ts).Got?
    ensures Takes(ts, List(ts).rest)
    decreases |ts|, 3
  {
    var head := Parse(0, ts);
    ParseTakes(0, ts);
    if Next(head.rest, TComma) {
      TakesOne(head.rest);
      ListTakes(head.rest[1..]);
      TakesMore(head.rest, head.rest[1..], List(ts).rest);
      TakesMore(ts, head.rest, List(ts).rest);
    }
  }

  lemma {:induction false} PrimaryTakes(ts: seq<Token>)
    requires Primary(ts).Got?
    ensures Takes(ts, Primary(ts).rest)
    decreases |ts|, 0
  {
    match ts[0]
    case TWord(_) => TakesOne(ts);
    case TLit(_) => TakesOne(ts);
    case TLPar =>
      ParseTakes(0, ts[1..]);
      TakesGroup(ts, Parse(0, ts[1..]).rest);
    case TPosition =>
      TakesOne(ts);
      assert ts[1..][1..] == ts[2..];
      PositionTakes(ts[1..]);
      TakesMore(ts, ts[1..], Primary(ts).rest);
    case TExtract => ExtractTakes(ts);
    case TConcat =>
      TakesOne(ts);
      assert ts[1..][1..] == ts[2..];
      ListTakes(ts[2..]);
      TakesGroup(ts[1..], List(ts[2..]).rest);
      TakesMore(ts, ts[1..], Primary(ts).rest);
  }

  lemma {:induction false} ExtractTakes(ts: seq<Token>)
    requires Primary(ts).Got? && Next(ts, TExtract)
    ensures Takes(ts, Primary(ts).rest)
    decreases |ts|, 0, 0
  {
    var rest := Parse(0, ts[4..]).rest;
    assert ts[2..][2..] == ts[4..] && ts[1..][1..] == ts[2..];
    ParseTakes(0, ts[4..]);
    TakesPair(ts[2..]);
    TakesMore(ts[2..], ts[4..], rest);
    TakesGroup(ts[1..], rest);
    TakesOne(ts);
    TakesMore(ts, ts[1..], rest[1..]);
  }

  lemma TakesPair(ts: seq<Token>)
    requires |ts| >= 2 && Weight(ts[0]) == 0 && Weight(ts[1]) == 0
    ensures Takes(ts, ts[2..])
  {
    TakesOne(ts);
    TakesOne(ts[1..]);
    assert ts[1..][1..] == ts[2..];
    TakesMore(ts, ts[1..], ts[2..]);
  }

  /** ( needle IN hay ) */
  lemma {:induction false} PositionTakes(ts: seq<Token>)
    requires Next(ts, TLPar) && PositionCall(ts[1..]).Got?
    ensures Takes(ts, PositionCall(ts[1..]).rest)
    decreases |ts|, 5
  {
    var needle := Restricted(ts[1..]);
    RestrictedTakes(ts[1..]);
    TakesOne(needle.rest);
    TakesMore(ts[1..], needle.rest, needle.rest[1..]);
    var hay := Restricted(needle.rest[1..]);
    RestrictedTakes(needle.rest[1..]);
    TakesMore(ts[1..], needle.rest[1..], hay.rest);
    TakesGroup(ts, hay.rest);
  }

  lemma {:induction false} RestrictedTakes(ts: seq<Token>)
    requires Restricted(ts).Got?
    ensures Takes(ts, Restricted(ts).rest)
    decreases |ts|, 3
  {
    var left := Parse(5, ts);
    ParseTakes(5, ts);
    if Level(left.rest) == 3 && left.rest[0].TOp? {
      TakesOne(left.rest);
      ParseTakes(5, left.rest[1..]);
      TakesMore(left.rest, left.rest[1..], Restricted(ts).rest);
      TakesMore(ts, left.rest, Restricted(ts).rest);
    }
  }

  /** A filter that can be read is balanced. */
  lemma ReadIsBalanced(ts: seq<Token>)
    requires ReadFilter(ts).Some?
    ensures Balanced(ts)
  {
    ParseTakes(0, ts);
    assert Used(ts, []) == ts;
  }

  /** What is read up to a closing parenthesis of a balanced text with one too many is the whole text. */
  lemma ClosesAtTheEnd(body: seq<Token>, rest: seq<Token>)
    requires Balanced(body) && Takes(body + [TRPar], rest) && Next(rest, TRPar)
    ensures rest == [TRPar]
  {
    var ts := body + [TRPar];
    var n := |ts| - |rest|;
    if n < |body| {
      assert Deep(body, n + 1);
      assert ts[..n] == body[..n] && ts[n] == TRPar && body[n] == TRPar;
      assert body[..n + 1] == body[..n] + [TRPar];
      assert [TRPar][1..] == [];
      DepthAppends(body[..n], [TRPar]);
    }
  }
}
