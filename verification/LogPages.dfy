/** Following page tokens to the end: which log records a client sees. */
module LogPages {
  import opened Prelude
  import opened Arithmetic
  import opened ResultNames
  import opened LogListing

  /** Every row can be judged. */
  predicate Clean(prg: Program, rows: seq<Row>) {
    forall i :: 0 <= i < |rows| ==> !prg(rows[i]).Broken?
  }

  function Shown(prg: Program, rows: seq<Row>): seq<Item> {
    if rows == [] then []
    else (match prg(rows[0]) case Show(name) => [Item(rows[0].id, name)] case _ => []) + Shown(prg, rows[1..])
  }

  /** All matching records above a cursor. */
  function Matching(s: Scope, table: seq<Row>, prg: Program, start: Id): seq<Item> {
    Shown(prg, Above(s, table, start))
  }

  lemma {:induction false} TakeIsFirst(prg: Program, rows: seq<Row>, n: nat)
    requires Clean(prg, rows)
    ensures Take(prg, rows, n) == Good(Shown(prg, rows)[..Min(n, |Shown(prg, rows)|)])
  {
    if n > 0 && rows != [] {
      var all := Shown(prg, rows);
      match prg(rows[0])
      case Show(name) =>
        var item := Item(rows[0].id, name);
        TakeIsFirst(prg, rows[1..], n - 1);
        assert all == [item] + Shown(prg, rows[1..]);
        assert all[..Min(n, |all|)] == [item] + Shown(prg, rows[1..])[..Min(n - 1, |all| - 1)];
      case Skip =>
        TakeIsFirst(prg, rows[1..], n);
        assert all == Shown(prg, rows[1..]);
    }
  }

  lemma AboveIsClean(s: Scope, table: seq<Row>, prg: Program, start: Id)
    requires Clean(prg, table)
    ensures Clean(prg, Above(s, table, start))
  {
    forall k | 0 <= k < |Above(s, table, start)| ensures !prg(Above(s, table, start)[k]).Broken? {
      AboveIsAbove(s, table, start, k);
    }
  }

  lemma ShownUnfolds(prg: Program, rows: seq<Row>)
    requires rows != []
    ensures var v := prg(rows[0]);
      if v.Show? then Shown(prg, rows) == [Item(rows[0].id, v.name)] + Shown(prg, rows[1..])
      else Shown(prg, rows) == Shown(prg, rows[1..])
  {
  }

  /** The index of the row that item `k` comes from. */
  function RowOf(prg: Program, rows: seq<Row>, k: nat): (i: nat)
    requires k < |Shown(prg, rows)|
    ensures i < |rows|
  {
    ShownUnfolds(prg, rows);
    if !prg(rows[0]).Show? then 1 + RowOf(prg, rows[1..], k)
    else if k == 0 then 0
    else 1 + RowOf(prg, rows[1..], k - 1)
  }

  lemma {:induction false} RowOfHasId(prg: Program, rows: seq<Row>, k: nat)
    requires k < |Shown(prg, rows)|
    ensures rows[RowOf(prg, rows, k)].id == Shown(prg, rows)[k].uid
  {
    ShownUnfolds(prg, rows);
    if !prg(rows[0]).Show? { RowOfHasId(prg, rows[1..], k); }
    else if k > 0 { RowOfHasId(prg, rows[1..], k - 1); }
  }

  lemma {:induction false} RowOfSplits(prg: Program, rows: seq<Row>, k: nat)
    requires k < |Shown(prg, rows)|
    ensures Shown(prg, rows[RowOf(prg, rows, k) + 1..]) == Shown(prg, rows)[k + 1..]
  {
    ShownUnfolds(prg, rows);
    var rest := rows[1..];
    if !prg(rows[0]).Show? {
      RowOfSplits(prg, rest, k);
      assert rest[RowOf(prg, rest, k) + 1..] == rows[RowOf(prg, rows, k) + 1..];
    } else if k > 0 {
      RowOfSplits(prg, rest, k - 1);
      assert rest[RowOf(prg, rest, k - 1) + 1..] == rows[RowOf(prg, rows, k) + 1..];
      assert Shown(prg, rest)[k..] == Shown(prg, rows)[k + 1..];
    }
  }

  /** A token naming the record at position `k` resumes after it. */
  lemma ResumesAfter(s: Scope, table: seq<Row>, prg: Program, start: Id, k: nat)
    requires Sorted(table) && k < |Matching(s, table, prg, start)|
    ensures var m := Matching(s, table, prg, start); Matching(s, table, prg, m[k].uid) == m[k + 1..]
  {
    RowOfHasId(prg, Above(s, table, start), k);
    RowOfSplits(prg, Above(s, table, start), k);
    CursorMoves(s, table, start, RowOf(prg, Above(s, table, start), k));
  }

  lemma PageIs(s: Scope, table: seq<Row>, prg: Program, filter: string, start: Id, n: nat)
    requires Clean(prg, table)
    ensures var m := Matching(s, table, prg, start);
      PageFrom(s, table, prg, filter, start, n) ==
        Good(if |m| > n then Page(m[..n], Some(Token(m[n].uid, filter))) else Page(m, None))
  {
    AboveIsClean(s, table, prg, start);
    TakeIsFirst(prg, Above(s, table, start), n + 1);
    var m := Matching(s, table, prg, start);
    if |m| > n { assert m[..n + 1][..n] == m[..n]; } else { assert m[..|m|] == m; }
  }

  /**
   A token the listing issues is accepted again exactly with the filter it was issued for, and then
   resumes after the match it names, the first one its page withheld.
   */
  lemma IssuedTokenResumes(s: Scope, table: seq<Row>, prg: Program, filter: string, start: Id, n: nat, again: string)
    requires Sorted(table) && Clean(prg, table)
    requires PageFrom(s, table, prg, filter, start, n).Good? && PageFrom(s, table, prg, filter, start, n).value.next.Some?
    ensures var m := Matching(s, table, prg, start);
      var page := PageFrom(s, table, prg, filter, start, n).value;
      var cursor := PageStart(page.next, again);
      && |m| > n && page.items == m[..n]
      && (cursor.Good? <==> again == filter)
      && (cursor.Good? ==> Matching(s, table, prg, cursor.value) == m[n + 1..])
  {
    PageIs(s, table, prg, filter, start, n);
    if |Matching(s, table, prg, start)| > n { ResumesAfter(s, table, prg, start, n); }
  }

  // ---------- the walk ----------

  /** The items of all pages, following each token with the same filter and page size. */
  function Walk(s: Scope, table: seq<Row>, prg: Program, filter: string, n: nat, start: Id): seq<Item>
    requires Sorted(table) && Clean(prg, table) && n > 0
    decreases |Matching(s, table, prg, start)|
  {
    PageIs(s, table, prg, filter, start, n);
    var page := PageFrom(s, table, prg, filter, start, n).value;
    if page.next.None? then page.items
    else
      ResumesAfter(s, table, prg, start, n);
      page.items + Walk(s, table, prg, filter, n, page.next.value.name)
  }

  /** What is left of a sequence when every (n+1)-th element is dropped, each page being followed by one. */
  function Sieve(m: seq<Item>, n: nat): seq<Item> {
    if |m| <= n then m else m[..n] + Sieve(m[n + 1..], n)
  }

  lemma {:induction false} WalkSieves(s: Scope, table: seq<Row>, prg: Program, filter: string, n: nat, start: Id)
    requires Sorted(table) && Clean(prg, table) && n > 0
    ensures Walk(s, table, prg, filter, n, start) == Sieve(Matching(s, table, prg, start), n)
    decreases |Matching(s, table, prg, start)|
  {
    var m := Matching(s, table, prg, start);
    PageIs(s, table, prg, filter, start, n);
    if |m| > n {
      ResumesAfter(s, table, prg, start, n);
      WalkSieves(s, table, prg, filter, n, m[n].uid);
    }
  }

  predicate Before(m: seq<Item>, i: nat, j: nat) { i < j < |m| ==> m[i].uid < m[j].uid }

  ghost predicate Ascending(m: seq<Item>) { forall i: nat, j: nat :: Before(m, i, j) }

  lemma {:induction false} ShownStaysAbove(prg: Program, rows: seq<Row>, bound: Id, k: nat)
    requires (forall i :: 0 <= i < |rows| ==> rows[i].id > bound) && k < |Shown(prg, rows)|
    ensures Shown(prg, rows)[k].uid > bound
  {
    RowOfHasId(prg, rows, k);
  }

  lemma {:induction false} ShownAscends(prg: Program, rows: seq<Row>)
    requires Sorted(rows)
    ensures Ascending(Shown(prg, rows))
  {
    if rows != [] {
      ShownAscends(prg, rows[1..]);
      ShownUnfolds(prg, rows);
      var rest := Shown(prg, rows[1..]);
      if prg(rows[0]).Show? {
        forall k | 0 <= k < |rest| ensures rest[k].uid > rows[0].id { ShownStaysAbove(prg, rows[1..], rows[0].id, k); }
        ConsAscends(Item(rows[0].id, prg(rows[0]).name), rest);
      }
    }
  }

  lemma ConsAscends(x: Item, m: seq<Item>)
    requires Ascending(m) && forall k :: 0 <= k < |m| ==> m[k].uid > x.uid
    ensures Ascending([x] + m)
  {
    forall i: nat, j: nat ensures Before([x] + m, i, j) { if 0 < i < j { assert Before(m, i - 1, j - 1); } }
  }

  lemma {:induction false} AboveStaysSorted(s: Scope, table: seq<Row>, start: Id)
    requires Sorted(table)
    ensures Sorted(Above(s, table, start))
  {
    if table != [] {
      var rest := Above(s, table[1..], start);
      AboveStaysSorted(s, table[1..], start);
      forall k | 0 <= k < |rest| ensures rest[k].id > table[0].id { AboveIsAbove(s, table[1..], start, k); }
    }
  }

  lemma SuffixAscends(m: seq<Item>, k: nat)
    requires Ascending(m) && k <= |m|
    ensures Ascending(m[k..])
  {
    forall i: nat, j: nat ensures Before(m[k..], i, j) { assert Before(m, k + i, k + j); }
  }

  lemma {:induction false} SieveStaysWithin(m: seq<Item>, n: nat)
    requires Ascending(m)
    ensures Ascending(Sieve(m, n)) && Within(Sieve(m, n), m)
    decreases |m|
  {
    if |m| > n {
      SuffixAscends(m, n + 1);
      SieveStaysWithin(m[n + 1..], n);
      SieveSplitOrder(m, n);
    }
  }

  /** Position j is one that a token names, counted page by page. */
  predicate Withheld(j: nat, n: nat) { if j <= n then j == n else Withheld(j - (n + 1), n) }

  lemma {:induction false} SieveKeepsIff(m: seq<Item>, n: nat, j: nat)
    requires Ascending(m) && n > 0 && j < |m|
    ensures m[j] in Sieve(m, n) <==> !Withheld(j, n)
    decreases |m|
  {
    if |m| <= n {
      assert m[j] in m;
    } else if j <= n {
      SieveSplit(m, n, j);
    } else {
      SuffixAscends(m, n + 1);
      SieveKeepsIff(m[n + 1..], n, j - (n + 1));
      SieveLater(m, n, j, !Withheld(j - (n + 1), n));
    }
  }

  /** A later element fares as it does among the later ones. */
  lemma SieveLater(m: seq<Item>, n: nat, j: nat, kept: bool)
    requires Ascending(m) && n < j < |m|
    requires m[n + 1..][j - (n + 1)] in Sieve(m[n + 1..], n) <==> kept
    ensures m[j] in Sieve(m, n) <==> kept
  {
    SieveSplit(m, n, j);
  }

  lemma {:induction false} WithheldIff(j: nat, n: nat)
    ensures Withheld(j, n) <==> j % (n + 1) == n
  {
    if j > n {
      WithheldIff(j - (n + 1), n);
      LessOne(j, n + 1);
    }
  }

  predicate Within(a: seq<Item>, b: seq<Item>) { forall i :: 0 <= i < |a| ==> a[i] in b }

  /** Everything after the dropped element is above it. */
  lemma SieveRestIsAbove(m: seq<Item>, n: nat, i: nat)
    requires Ascending(m) && |m| > n && Within(Sieve(m[n + 1..], n), m[n + 1..]) && i < |Sieve(m[n + 1..], n)|
    ensures Sieve(m[n + 1..], n)[i].uid > m[n].uid && Sieve(m[n + 1..], n)[i] in m
  {
    var later := m[n + 1..];
    var x := Sieve(later, n)[i];
    assert x in later;
    var p :| 0 <= p < |later| && later[p] == x;
    assert m[n + 1 + p] == x && Before(m, n, n + 1 + p);
  }

  lemma AscendingParts(a: seq<Item>, b: seq<Item>, bound: Id)
    requires Ascending(a) && Ascending(b)
    requires forall i :: 0 <= i < |a| ==> a[i].uid < bound
    requires forall i :: 0 <= i < |b| ==> b[i].uid > bound
    ensures Ascending(a + b)
  {
    forall i: nat, j: nat ensures Before(a + b, i, j) {
      assert Before(a, i, j);
      if |a| <= i < j { assert Before(b, i - |a|, j - |a|); }
    }
  }

  lemma SieveSplitOrder(m: seq<Item>, n: nat)
    requires Ascending(m) && |m| > n && Ascending(Sieve(m[n + 1..], n)) && Within(Sieve(m[n + 1..], n), m[n + 1..])
    ensures Ascending(Sieve(m, n)) && Within(Sieve(m, n), m)
  {
    var page, rest := m[..n], Sieve(m[n + 1..], n);
    forall i | 0 <= i < |rest| ensures rest[i].uid > m[n].uid && rest[i] in m { SieveRestIsAbove(m, n, i); }
    forall i: nat, j: nat ensures Before(page, i, j) { assert Before(m, i, j); }
    forall i | 0 <= i < n ensures page[i].uid < m[n].uid { assert Before(m, i, n); }
    AscendingParts(page, rest, m[n].uid);
    forall i | 0 <= i < |page + rest| ensures (page + rest)[i] in m {
      if i < n { assert page[i] == m[i]; }
    }
  }

  /** An element of the first page survives, the next one does not, and a later one as the rest decides. */
  lemma SieveSplit(m: seq<Item>, n: nat, j: nat)
    requires Ascending(m) && |m| > n && j < |m|
    ensures m[j] in Sieve(m, n) <==> j < n || (j > n && m[n + 1..][j - (n + 1)] in Sieve(m[n + 1..], n))
  {
    SuffixAscends(m, n + 1);
    SieveStaysWithin(m[n + 1..], n);
    var page, rest := m[..n], Sieve(m[n + 1..], n);
    assert Sieve(m, n) == page + rest;
    if j < n {
      assert page[j] == m[j];
    } else {
      forall i | 0 <= i < n ensures page[i] != m[j] { assert Before(m, i, j); }
      forall i | 0 <= i < |rest| ensures rest[i].uid > m[n].uid { SieveRestIsAbove(m, n, i); }
    }
  }

  /**
   Following the tokens to the end with page size n yields matching records in ascending order without
   repeats, and drops exactly the records at positions n, 2n+1, 3n+2, ...: a token names the first
   record it withheld and the next query starts strictly above it.
   */
  lemma WalkReturnsIff(s: Scope, table: seq<Row>, prg: Program, filter: string, n: nat, j: nat)
    requires Sorted(table) && Clean(prg, table) && n > 0 && j < |Matching(s, table, prg, 0)|
    ensures Matching(s, table, prg, 0)[j] in Walk(s, table, prg, filter, n, 0) <==> j % (n + 1) != n
    ensures Ascending(Walk(s, table, prg, filter, n, 0))
    ensures Within(Walk(s, table, prg, filter, n, 0), Matching(s, table, prg, 0))
  {
    AboveStaysSorted(s, table, 0);
    ShownAscends(prg, Above(s, table, 0));
    WalkSieves(s, table, prg, filter, n, 0);
    SieveKeepsIff(Matching(s, table, prg, 0), n, j);
    WithheldIff(j, n);
    SieveStaysWithin(Matching(s, table, prg, 0), n);
  }

  /** The walk is complete exactly when everything fits on the first page. */
  lemma WalkIsCompleteIff(s: Scope, table: seq<Row>, prg: Program, filter: string, n: nat)
    requires Sorted(table) && Clean(prg, table) && n > 0
    ensures Walk(s, table, prg, filter, n, 0) == Matching(s, table, prg, 0) <==> |Matching(s, table, prg, 0)| <= n
  {
    var m := Matching(s, table, prg, 0);
    WalkSieves(s, table, prg, filter, n, 0);
    if |m| > n {
      WalkReturnsIff(s, table, prg, filter, n, n);
      WithheldIff(n, n);
    }
  }

  /** The same walk if each token named the last record returned. */
  function WalkFromLast(s: Scope, table: seq<Row>, prg: Program, filter: string, n: nat, start: Id): seq<Item>
    requires Sorted(table) && Clean(prg, table) && n > 0
    decreases |Matching(s, table, prg, start)|
  {
    PageIs(s, table, prg, filter, start, n);
    var page := PageFrom(s, table, prg, filter, start, n).value;
    if page.next.None? then page.items
    else
      ResumesAfter(s, table, prg, start, n - 1);
      page.items + WalkFromLast(s, table, prg, filter, n, page.items[n - 1].uid)
  }

  lemma WalkFromLastUnfolds(s: Scope, table: seq<Row>, prg: Program, filter: string, n: nat, start: Id)
    requires Sorted(table) && Clean(prg, table) && n > 0
    ensures var m := Matching(s, table, prg, start);
      WalkFromLast(s, table, prg, filter, n, start) ==
        if |m| > n then m[..n] + WalkFromLast(s, table, prg, filter, n, m[n - 1].uid) else m
  {
    PageIs(s, table, prg, filter, start, n);
  }

  /** Such tokens would lose nothing. */
  lemma {:induction false} WalkFromLastIsComplete(s: Scope, table: seq<Row>, prg: Program, filter: string, n: nat, start: Id)
    requires Sorted(table) && Clean(prg, table) && n > 0
    ensures WalkFromLast(s, table, prg, filter, n, start) == Matching(s, table, prg, start)
    decreases |Matching(s, table, prg, start)|
  {
    var m := Matching(s, table, prg, start);
    WalkFromLastUnfolds(s, table, prg, filter, n, start);
    if |m| > n {
      ResumesAfter(s, table, prg, start, n - 1);
      WalkFromLastIsComplete(s, table, prg, filter, n, m[n - 1].uid);
      assert m == m[..n] + m[n..];
    }
  }

  // ---------- what is listed, in the fields of the rows ----------

  /** A log of the result asked for; "-" asks for any parent, or any result. */
  predicate InScope(s: Scope, r: Row) {
    && r.kind == LOG_TYPE
    && (s.parent != "-" ==> r.parent == s.parent)
    && (s.result != "-" ==> r.result == s.result)
  }

  /** The item shows the row: the filter matches it, and it goes by its id and its log name. */
  predicate Shows(matches: Row -> Answer<bool>, r: Row, x: Item) {
    x.uid == r.id && matches(r) == Good(true) && LogName(r) == Good(x.name)
  }

  /** A table can be judged exactly when the filter is defined on every row and every match has a name. */
  lemma CleanIff(matches: Row -> Answer<bool>, rows: seq<Row>)
    ensures Clean(r => Judge(matches, r), rows) <==>
      forall i :: 0 <= i < |rows| ==> matches(rows[i]).Good? && (matches(rows[i]).value ==> LogName(rows[i]).Good?)
  {
    var prg := r => Judge(matches, r);
    assert forall i :: 0 <= i < |rows| ==> prg(rows[i]) == Judge(matches, rows[i]);
  }

  /** What the query asks for, row by row. */
  lemma {:induction false} AboveIff(s: Scope, table: seq<Row>, start: Id, r: Row)
    ensures r in Above(s, table, start) <==> r in table && InScope(s, r) && r.id > start
  {
    if table != [] {
      AboveIff(s, table[1..], start, r);
      assert table == [table[0]] + table[1..];
    }
  }

  lemma {:induction false} ShownIff(matches: Row -> Answer<bool>, rows: seq<Row>, x: Item)
    ensures x in Shown(r => Judge(matches, r), rows) <==> exists i :: 0 <= i < |rows| && Shows(matches, rows[i], x)
  {
    if rows != [] {
      ShownUnfolds(r => Judge(matches, r), rows);
      ShownIff(matches, rows[1..], x);
      if i :| 0 <= i < |rows| && Shows(matches, rows[i], x) && i > 0 { assert rows[1..][i - 1] == rows[i]; }
      if i :| 0 <= i < |rows[1..]| && Shows(matches, rows[1..][i], x) { assert rows[i + 1] == rows[1..][i]; }
    }
  }

  lemma {:induction false} TakenIsShown(prg: Program, rows: seq<Row>, n: nat, k: nat)
    requires Take(prg, rows, n).Good? && k < |Take(prg, rows, n).value|
    ensures Take(prg, rows, n).value[k] in Shown(prg, rows)
  {
    ShownUnfolds(prg, rows);
    match prg(rows[0])
    case Skip => TakenIsShown(prg, rows[1..], n, k);
    case Show(_) => if k > 0 { TakenIsShown(prg, rows[1..], n - 1, k - 1); }
  }

  /** An item on any page shows a log row of the parent and result asked for, above the page's cursor. */
  lemma {:induction false} ListedIsInScope(s: Scope, table: seq<Row>, matches: Row -> Answer<bool>, filter: string, start: Id, n: nat, k: nat)
    requires var page := PageFrom(s, table, r => Judge(matches, r), filter, start, n); page.Good? && k < |page.value.items|
    ensures var x := PageFrom(s, table, r => Judge(matches, r), filter, start, n).value.items[k];
      exists i :: 0 <= i < |table| && InScope(s, table[i]) && table[i].id > start && Shows(matches, table[i], x)
  {
    var prg := r => Judge(matches, r);
    var x := Take(prg, Above(s, table, start), n + 1).value[k];
    TakenIsShown(prg, Above(s, table, start), n + 1, k);
    MatchingIff(s, table, matches, start, x);
  }

  /** The matches a walk is about are exactly the rows in scope above the cursor that the filter matches. */
  lemma {:induction false} MatchingIff(s: Scope, table: seq<Row>, matches: Row -> Answer<bool>, start: Id, x: Item)
    ensures x in Matching(s, table, r => Judge(matches, r), start) <==>
      exists i :: 0 <= i < |table| && InScope(s, table[i]) && table[i].id > start && Shows(matches, table[i], x)
  {
    var rows := Above(s, table, start);
    ShownIff(matches, rows, x);
    if i :| 0 <= i < |rows| && Shows(matches, rows[i], x) {
      AboveIff(s, table, start, rows[i]);
      var j :| 0 <= j < |table| && table[j] == rows[i];
    }
    if i :| 0 <= i < |table| && InScope(s, table[i]) && table[i].id > start && Shows(matches, table[i], x) {
      AboveIff(s, table, start, table[i]);
      var j :| 0 <= j < |rows| && rows[j] == table[i];
    }
  }

  /** The name a log goes by: its record's, with "logs" for "records"; a record with a bad name has none. */
  lemma LogNameIs(r: Row)
    requires NoSlash(r.parent) && NoSlash(r.result)
    ensures Segment(r.parent) && Segment(r.result) && Segment(r.name) ==>
      LogName(r) == Good(r.parent + "/results/" + r.result + "/logs/" + r.name)
    ensures !(Segment(r.parent) && Segment(r.result) && Segment(r.name)) ==> LogName(r).Bad?
  {
    ParseFormatRecord(r.parent, r.result, r.name);
  }
}
