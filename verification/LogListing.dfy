/** Listing log records: the batched query loop, the batcher, and the page tokens. */
module LogListing {
  import opened Prelude
  import opened ResultNames

  const LOG_TYPE := "results.tekton.dev/v1alpha3.Log"
  const MIN_PAGE := 50
  const MAX_PAGE := 10000

  /** Ids are only ever compared; an id is its rank among all ids, and 0 stands for the empty cursor. */
  type Id = nat

  datatype Row = Row(id: Id, kind: string, parent: string, result: string, name: string, data: string)

  datatype Item = Item(uid: Id, name: string)

  datatype Answer<T> = Good(value: T) | Bad(why: string)

  /** What the filter program and the renaming make of a row. */
  datatype Verdict = Broken(why: string) | Skip | Show(name: string)

  type Program = Row -> Verdict

  predicate Sorted(table: seq<Row>) {
    forall i, j :: 0 <= i < j < |table| ==> table[i].id < table[j].id
  }

  // ---------- the query ----------

  datatype Scope = Scope(parent: string, result: string)

  predicate Selects(s: Scope, r: Row) {
    r.kind == LOG_TYPE && (s.parent == "-" || r.parent == s.parent) && (s.result == "-" || r.result == s.result)
  }

  /** The rows in scope above the cursor, in table order. */
  function Above(s: Scope, table: seq<Row>, start: Id): (rows: seq<Row>)
    ensures |rows| <= |table|
  {
    if table == [] then []
    else if Selects(s, table[0]) && table[0].id > start then [table[0]] + Above(s, table[1..], start)
    else Above(s, table[1..], start)
  }

  function Min(a: int, b: int): int { if a < b then a else b }

  function Query(s: Scope, table: seq<Row>, start: Id, limit: nat): seq<Row> {
    var rows := Above(s, table, start);
    rows[..Min(limit, |rows|)]
  }

  lemma {:induction false} AboveIsAbove(s: Scope, table: seq<Row>, start: Id, k: nat)
    requires k < |Above(s, table, start)|
    ensures Above(s, table, start)[k] in table && Above(s, table, start)[k].id > start
  {
    if Selects(s, table[0]) && table[0].id > start {
      if k > 0 { AboveIsAbove(s, table[1..], start, k - 1); }
    } else {
      AboveIsAbove(s, table[1..], start, k);
    }
  }

  lemma {:induction false} LowerCursorsAgree(s: Scope, table: seq<Row>, a: Id, b: Id)
    requires forall i :: 0 <= i < |table| ==> table[i].id > a && table[i].id > b
    ensures Above(s, table, a) == Above(s, table, b)
  {
    if table != [] { LowerCursorsAgree(s, table[1..], a, b); }
  }

  /** Moving the cursor to a row of the answer leaves exactly the rows after it. */
  lemma {:induction false} CursorMoves(s: Scope, table: seq<Row>, start: Id, k: nat)
    requires Sorted(table) && k < |Above(s, table, start)|
    ensures var rows := Above(s, table, start); Above(s, table, rows[k].id) == rows[k + 1..]
  {
    var rows, rest := Above(s, table, start), table[1..];
    if Selects(s, table[0]) && table[0].id > start {
      if k == 0 {
        LowerCursorsAgree(s, rest, start, table[0].id);
        assert rows[1..] == Above(s, rest, start);
      } else {
        CursorMoves(s, rest, start, k - 1);
        AboveIsAbove(s, rest, start, k - 1);
        assert rows[k + 1..] == Above(s, rest, start)[k..];
      }
    } else {
      CursorMoves(s, rest, start, k);
      AboveIsAbove(s, rest, start, k);
    }
  }

  // ---------- the batcher ----------

  function Ceil(x: real): int { -((-x).Floor) }

  lemma Whole(x: real)
    requires x != 0.0
    ensures x / x == 1.0
  {
  }

  class Batcher {
    const want: int
    const min: int
    const max: int
    var ratio: real

    constructor (want: int, min: int, max: int)
      ensures this.want == want && this.min == min && this.max == max && ratio == 1.0
    {
      this.want, this.min, this.max, this.ratio := want, min, max, 1.0;
    }

    /** A full batch keeps the ratio at one. */
    method Update(matched: int, total: int)
      requires total != 0
      modifies this
      ensures ratio == matched as real / total as real
      ensures matched == total ==> ratio == 1.0
    {
      ratio := matched as real / total as real;
      Whole(total as real);
    }

    method Next() returns (n: int)
      requires ratio != 0.0
      ensures n <= max
      ensures ratio == 1.0 ==> n == Min(want, max)
    {
      n := Ceil(want as real / ratio);
      if n > max { return max; }
    }
  }

  // ---------- the loop ----------

  function LogName(r: Row): Answer<string> {
    var p := ParseRecord(FormatRecord(FormatResult(r.parent, r.result), r.name));
    if p.None? then Bad("invalid record name")
    else Good(FormatResult(p.value.0, p.value.1) + "/logs/" + p.value.2)
  }

  /** The verdict on a row from the compiled CEL filter; a match is renamed from record to log format. */
  function Judge(matches: Row -> Answer<bool>, r: Row): Verdict {
    match matches(r)
    case Bad(why) => Broken(why)
    case Good(false) => Skip
    case Good(true) => match LogName(r) case Bad(why) => Broken(why) case Good(name) => Show(name)
  }

  /** The first `n` matching rows; a row that cannot be judged before they are found spoils the answer. */
  function Take(prg: Program, rows: seq<Row>, n: nat): Answer<seq<Item>> {
    if n == 0 || rows == [] then Good([])
    else
      match prg(rows[0])
      case Broken(why) => Bad(why)
      case Skip => Take(prg, rows[1..], n)
      case Show(name) =>
        match Take(prg, rows[1..], n - 1)
        case Bad(why) => Bad(why)
        case Good(items) => Good([Item(rows[0].id, name)] + items)
  }

  function Prepend(items: seq<Item>, a: Answer<seq<Item>>): Answer<seq<Item>> {
    match a case Bad(why) => Bad(why) case Good(more) => Good(items + more)
  }

  lemma PrependUnits(items: seq<Item>, a: Answer<seq<Item>>)
    ensures Prepend([], a) == a && Prepend(items, Good([])) == Good(items)
  {
    if a.Good? { assert [] + a.value == a.value; }
    assert items + [] == items;
  }

  /** The whole answer, when `got` has been found and `rows` are still to be looked at. */
  function Rest(prg: Program, rows: seq<Row>, got: seq<Item>, n: nat): Answer<seq<Item>>
    requires |got| <= n
  {
    Prepend(got, Take(prg, rows, n - |got|))
  }

  lemma RestEnds(prg: Program, rows: seq<Row>, got: seq<Item>, n: nat)
    requires |got| <= n && (rows == [] || |got| == n)
    ensures Rest(prg, rows, got, n) == Good(got)
  {
    PrependUnits(got, Good([]));
  }

  lemma RestStep(prg: Program, rows: seq<Row>, got: seq<Item>, n: nat)
    requires rows != [] && |got| < n
    ensures match prg(rows[0])
      case Broken(why) => Rest(prg, rows, got, n) == Bad(why)
      case Skip => Rest(prg, rows, got, n) == Rest(prg, rows[1..], got, n)
      case Show(name) => Rest(prg, rows, got, n) == Rest(prg, rows[1..], got + [Item(rows[0].id, name)], n)
  {
    match prg(rows[0])
    case Show(name) =>
      var rest := Take(prg, rows[1..], n - |got| - 1);
      if rest.Good? { assert got + ([Item(rows[0].id, name)] + rest.value) == got + [Item(rows[0].id, name)] + rest.value; }
    case _ =>
  }

  /** The first `n` matching rows above the cursor, whatever the batch size turns out to be. */
  method GetLogs(s: Scope, table: seq<Row>, from: Id, n: nat, prg: Program) returns (r: Answer<seq<Item>>)
    requires Sorted(table)
    ensures r == Take(prg, Above(s, table, from), n)
  {
    var start, rec := from, [];
    PrependUnits([], Take(prg, Above(s, table, from), n));
    var batcher := new Batcher(n, MIN_PAGE, MAX_PAGE);
    while |rec| < n
      invariant |rec| <= n
      invariant fresh(batcher) && batcher.want == n && batcher.max == MAX_PAGE && batcher.ratio == 1.0
      invariant Take(prg, Above(s, table, from), n) == Rest(prg, Above(s, table, start), rec, n)
      decreases |Above(s, table, start)|
    {
      var batch := batcher.Next();
      assert batch == Min(n, MAX_PAGE);
      var rows := Query(s, table, start, batch);
      var broken;
      rec, broken := Collect(prg, Above(s, table, start), rows, rec, n);
      if broken.Some? { return Bad(broken.value); }
      if |rec| >= n || |rows| < batch {
        RestEnds(prg, Above(s, table, start)[|rows|..], rec, n);
        return Good(rec);
      }
      CursorMoves(s, table, start, |rows| - 1);
      start := rows[|rows| - 1].id;
      batcher.Update(|rows|, batch);
    }
    RestEnds(prg, Above(s, table, start), rec, n);
    return Good(rec);
  }

  /** The inner loop over one batch, the first of the rows above the cursor. */
  method Collect(prg: Program, all: seq<Row>, batch: seq<Row>, got: seq<Item>, n: nat)
    returns (rec: seq<Item>, broken: Option<string>)
    requires |got| < n && batch <= all
    ensures |got| <= |rec| <= n
    ensures broken.Some? ==> Rest(prg, all, got, n) == Bad(broken.value)
    ensures broken.None? ==> Rest(prg, all, got, n) == Rest(prg, all[|batch|..], rec, n)
  {
    rec, broken := got, None;
    for i := 0 to |batch|
      invariant |got| <= |rec| < n
      invariant Rest(prg, all, got, n) == Rest(prg, all[i..], rec, n)
    {
      var verdict := prg(batch[i]);
      RestStep(prg, all[i..], rec, n);
      assert all[i..][0] == batch[i] && all[i..][1..] == all[i + 1..];
      match verdict {
        case Broken(why) => return rec, Some(why);
        case Skip =>
        case Show(name) =>
          rec := rec + [Item(batch[i].id, name)];
          if |rec| >= n {
            RestEnds(prg, all[i + 1..], rec, n);
            RestEnds(prg, all[|batch|..], rec, n);
            return;
          }
      }
    }
  }

  // ---------- pages and tokens ----------

  datatype Token = Token(name: Id, filter: string)

  datatype Page = Page(items: seq<Item>, next: Option<Token>)

  function PageSize(requested: int): (r: Answer<nat>)
    ensures r.Good? <==> requested >= 0
    ensures r.Good? ==> 1 <= r.value <= 10000 && (0 < requested ==> r.value == Min(requested, 10000))
    ensures requested == 0 ==> r == Good(50)
  {
    if requested < 0 then Bad("PageSize should be greater than 0")
    else if requested == 0 then Good(MIN_PAGE)
    else if requested > MAX_PAGE then Good(MAX_PAGE)
    else Good(requested)
  }

  function PageStart(token: Option<Token>, filter: string): (r: Answer<Id>)
    ensures r.Bad? <==> token.Some? && token.value.filter != filter
    ensures r.Good? ==> r.value == if token.Some? then token.value.name else 0
  {
    if token.None? then Good(0)
    else if token.value.filter != filter then Bad("filter does not match previous query")
    else Good(token.value.name)
  }

  /** One page from a cursor: up to `n` items, and a token if there is an (n+1)-th. */
  function PageFrom(s: Scope, table: seq<Row>, prg: Program, filter: string, start: Id, n: nat): Answer<Page> {
    match Take(prg, Above(s, table, start), n + 1)
    case Bad(why) => Bad(why)
    case Good(items) =>
      if |items| > n then Good(Page(items[..|items| - 1], Some(Token(items[|items| - 1].uid, filter))))
      else Good(Page(items, None))
  }

  method ListLogs(s: Scope, table: seq<Row>, requested: int, token: Option<Token>, filter: string, matches: Row -> Answer<bool>)
    returns (r: Answer<Page>)
    requires Sorted(table)
    ensures PageSize(requested).Bad? || PageStart(token, filter).Bad? ==> r.Bad?
    ensures PageSize(requested).Good? && PageStart(token, filter).Good? ==>
      r == PageFrom(s, table, r => Judge(matches, r), filter, PageStart(token, filter).value, PageSize(requested).value)
  {
    var size := PageSize(requested);
    if size.Bad? { return Bad(size.why); }
    var start := PageStart(token, filter);
    if start.Bad? { return Bad(start.why); }
    var got := GetLogs(s, table, start.value, size.value + 1, r => Judge(matches, r));
    if got.Bad? { return Bad(got.why); }
    var rec, next := got.value, None;
    if |rec| > size.value {
      next := Some(Token(rec[|rec| - 1].uid, filter));
      rec := rec[..|rec| - 1];
    }
    return Good(Page(rec, next));
  }
}
