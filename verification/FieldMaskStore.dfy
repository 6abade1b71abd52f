/** The field mask as the program holds it: maps that refer to maps, and a path slice shared by the recursion. */
module FieldMaskStore {
  import opened FieldMask

  // ---------- maps on the heap ----------

  /** Map `i` is `maps[i]`; a value in it is the index of another map, always one made later. */
  type Maps = seq<map<string, int>>

  /** Every reference goes to a later map. */
  ghost predicate Ranged(maps: Maps) {
    forall i, k :: 0 <= i < |maps| && k in maps[i] ==> i < maps[i][k] < |maps|
  }

  /** No two references go to the same map. */
  ghost predicate Unshared(maps: Maps) {
    forall i, k, j, l ::
      0 <= i < |maps| && k in maps[i] && 0 <= j < |maps| && l in maps[j] && maps[i][k] == maps[j][l] ==> i == j && k == l
  }

  /** The value a map stands for. */
  ghost function Value(maps: Maps, i: nat): Mask
    requires Ranged(maps) && i < |maps|
    decreases |maps| - i
  {
    Mask(map k | k in maps[i] :: Value(maps, maps[i][k]))
  }

  /** The map a path leads to, if it leads to one. */
  ghost predicate Leads(maps: Maps, i: nat, fs: Path, to: nat)
    requires Ranged(maps) && i < |maps|
    decreases |fs|
  {
    if fs == [] then i == to else fs[0] in maps[i] && Leads(maps, maps[i][fs[0]], fs[1..], to)
  }

  ghost predicate Holds(maps: Maps, i: nat, fs: Path)
    requires Ranged(maps) && i < |maps|
    decreases |fs|
  {
    fs == [] || (fs[0] in maps[i] && Holds(maps, maps[i][fs[0]], fs[1..]))
  }

  lemma {:induction false} HoldsIsHas(maps: Maps, i: nat, fs: Path)
    requires Ranged(maps) && i < |maps|
    ensures Holds(maps, i, fs) <==> Has(Value(maps, i), fs)
    decreases |fs|
  {
    if fs != [] && fs[0] in maps[i] { HoldsIsHas(maps, maps[i][fs[0]], fs[1..]); }
  }

  lemma {:induction false} LeadsForward(maps: Maps, i: nat, fs: Path, to: nat)
    requires Ranged(maps) && i < |maps| && Leads(maps, i, fs, to)
    ensures i <= to < |maps| && (fs != [] ==> i < to)
    decreases |fs|
  {
    if fs != [] { LeadsForward(maps, maps[i][fs[0]], fs[1..], to); }
  }

  lemma {:induction false} LeadsOn(maps: Maps, i: nat, fs: Path, to: nat, k: string)
    requires Ranged(maps) && i < |maps| && to < |maps| && Leads(maps, i, fs, to) && k in maps[to]
    ensures Leads(maps, i, fs + [k], maps[to][k])
    decreases |fs|
  {
    if fs != [] {
      LeadsOn(maps, maps[i][fs[0]], fs[1..], to, k);
      assert (fs + [k])[1..] == fs[1..] + [k];
    }
  }

  /** A map is reached from another by one path only. */
  lemma {:induction false} OnePath(maps: Maps, i: nat, fs: Path, gs: Path, to: nat)
    requires Ranged(maps) && Unshared(maps) && i < |maps| && Leads(maps, i, fs, to) && Leads(maps, i, gs, to)
    ensures fs == gs
    decreases |fs|
  {
    if fs == [] || gs == [] {
      LeadsForward(maps, i, fs, to);
      LeadsForward(maps, i, gs, to);
    } else {
      var f := SplitLast(maps, i, fs, to);
      var g := SplitLast(maps, i, gs, to);
      OnePath(maps, i, fs[..|fs| - 1], gs[..|gs| - 1], f);
      assert fs == fs[..|fs| - 1] + [fs[|fs| - 1]];
      assert gs == gs[..|gs| - 1] + [gs[|gs| - 1]];
    }
  }

  lemma {:induction false} SplitLast(maps: Maps, i: nat, fs: Path, to: nat) returns (before: nat)
    requires Ranged(maps) && i < |maps| && fs != [] && Leads(maps, i, fs, to)
    ensures before < |maps| && Leads(maps, i, fs[..|fs| - 1], before)
    ensures fs[|fs| - 1] in maps[before] && maps[before][fs[|fs| - 1]] == to
    decreases |fs|
  {
    if |fs| == 1 {
      assert fs[1..] == [];
      before := i;
    } else {
      before := SplitLast(maps, maps[i][fs[0]], fs[1..], to);
      assert fs[..|fs| - 1][1..] == fs[1..][..|fs| - 2];
    }
  }

  // ---------- adding a reference ----------

  function Linked(maps: Maps, m: nat, k: string): Maps
    requires m < |maps|
  {
    maps[m := maps[m][k := |maps|]] + [map[]]
  }

  lemma LinkedIsRanged(maps: Maps, m: nat, k: string)
    requires Ranged(maps) && m < |maps| && k !in maps[m]
    ensures Ranged(Linked(maps, m, k))
  {
  }

  lemma LinkedIsUnshared(maps: Maps, m: nat, k: string)
    requires Ranged(maps) && Unshared(maps) && m < |maps| && k !in maps[m]
    ensures Unshared(Linked(maps, m, k))
  {
  }

  /** Path `g` from map `i` comes to `m` and goes on by `k`. */
  ghost predicate Via(maps: Maps, i: nat, g: Path, m: nat, k: string)
    requires Ranged(maps) && i < |maps|
  {
    g != [] && g[|g| - 1] == k && Leads(maps, i, g[..|g| - 1], m)
  }

  lemma ViaStep(maps: Maps, i: nat, g: Path, m: nat, k: string)
    requires Ranged(maps) && i < |maps| && g != []
    ensures Via(maps, i, g, m, k) <==>
      if |g| == 1 then i == m && g[0] == k else g[0] in maps[i] && Via(maps, maps[i][g[0]], g[1..], m, k)
  {
    var before := g[..|g| - 1];
    if |g| == 1 {
      assert before == [];
    } else {
      assert before[0] == g[0] && before[1..] == g[1..][..|g| - 2] && g[1..][|g| - 2] == g[|g| - 1];
    }
  }

  /** The new reference adds, below map `i`, the paths that come to `m` and go on by `k`. */
  lemma {:induction false} LinkAdds(maps: Maps, m: nat, k: string, i: nat, g: Path)
    requires m < |maps| && Ranged(maps) && Ranged(Linked(maps, m, k)) && k !in maps[m] && i < |maps|
    ensures Holds(Linked(maps, m, k), i, g) <==> Holds(maps, i, g) || Via(maps, i, g, m, k)
    decreases |g|
  {
    if g != [] {
      var maps' := Linked(maps, m, k);
      ViaStep(maps, i, g, m, k);
      if i == m && g[0] == k {
        assert maps'[i][k] == |maps| && maps'[|maps|] == map[];
        assert Holds(maps', |maps|, g[1..]) <==> |g| == 1;
      } else if g[0] in maps[i] {
        assert maps'[i][g[0]] == maps[i][g[0]];
        LinkAdds(maps, m, k, maps[i][g[0]], g[1..]);
      }
    }
  }

  lemma {:induction false} LinkKeepsLeads(maps: Maps, m: nat, k: string, i: nat, fs: Path, to: nat)
    requires m < |maps| && Ranged(maps) && Ranged(Linked(maps, m, k)) && k !in maps[m] && i < |maps| && Leads(maps, i, fs, to)
    ensures Leads(Linked(maps, m, k), i, fs, to)
    decreases |fs|
  {
    if fs != [] { LinkKeepsLeads(maps, m, k, maps[i][fs[0]], fs[1..], to); }
  }

  lemma {:induction false} LeadsHolds(maps: Maps, i: nat, fs: Path, to: nat)
    requires Ranged(maps) && i < |maps| && Leads(maps, i, fs, to)
    ensures Holds(maps, i, fs)
    decreases |fs|
  {
    if fs != [] { LeadsHolds(maps, maps[i][fs[0]], fs[1..], to); }
  }

  class FieldMaskObject {
    /** The mask is map 0. */
    var maps: Maps

    ghost predicate Valid() reads this { |maps| > 0 && Ranged(maps) && Unshared(maps) }

    ghost function Contents(): Mask
      requires Valid()
      reads this
    {
      Value(maps, 0)
    }

    constructor ()
      ensures Valid() && Contents() == EMPTY
    {
      maps := [map[]];
    }

    /** The descent that makes the missing maps of one path. */
    method Add(fields: Path)
      requires Valid()
      modifies this
      ensures Valid()
      ensures forall g: Path :: Has(Contents(), g) <==> Has(old(Contents()), g) || g <= fields
    {
      ghost var was := maps;
      var m := 0;
      for i := 0 to |fields|
        invariant Valid() && 0 <= m < |maps| && Leads(maps, 0, fields[..i], m)
        invariant forall g: Path :: Holds(maps, 0, g) <==> Holds(was, 0, g) || g <= fields[..i]
      {
        var field := fields[i];
        assert fields[..i + 1] == fields[..i] + [field];
        if field !in maps[m] {
          Extend(maps, m, fields[..i], field);
          maps := Linked(maps, m, field);
        } else {
          Passes(maps, m, fields[..i], field);
        }
        LeadsOn(maps, 0, fields[..i], m, field);
        forall g: Path ensures Holds(maps, 0, g) <==> Holds(was, 0, g) || g <= fields[..i + 1] {
          PrefixOfNext(fields, i, g);
        }
        m := maps[m][field];
      }
      assert fields[..|fields|] == fields;
      forall g: Path ensures Has(Contents(), g) <==> Has(old(Contents()), g) || g <= fields {
        HoldsIsHas(maps, 0, g);
        HoldsIsHas(was, 0, g);
      }
    }

    /** Adds every path of the list; what results is the mask the list describes. */
    method Build(paths: seq<string>)
      requires Valid()
      modifies this
      ensures Valid() && Contents() == BuildOn(old(Contents()), paths)
      decreases |paths|
    {
      if |paths| == 0 { return; }
      ghost var was := Contents();
      Add(Split(paths[0]));
      forall g: Path ensures Has(Contents(), g) <==> Has(Insert(was, Split(paths[0])), g) {
        InsertAdds(was, Split(paths[0]), g);
      }
      PathsDetermine(Contents(), Insert(was, Split(paths[0])));
      Build(paths[1..]);
    }
  }

  lemma PrefixOfNext(fields: Path, i: nat, g: Path)
    requires i < |fields|
    ensures g <= fields[..i + 1] <==> g <= fields[..i] || g == fields[..i + 1]
  {
    if g <= fields[..i + 1] && |g| <= i { assert g == fields[..i + 1][..|g|] == fields[..i][..|g|]; }
    if g <= fields[..i] { assert g == fields[..i][..|g|] == fields[..i + 1][..|g|]; }
  }

  /** Linking a new map at the end of a path adds that path's extension and nothing else. */
  lemma Extend(maps: Maps, m: nat, at: Path, field: string)
    requires |maps| > 0 && Ranged(maps) && Unshared(maps) && m < |maps| && Leads(maps, 0, at, m) && field !in maps[m]
    ensures var maps' := Linked(maps, m, field);
      Ranged(maps') && Unshared(maps') && Leads(maps', 0, at, m)
      && forall g: Path :: Holds(maps', 0, g) <==> Holds(maps, 0, g) || g == at + [field]
  {
    LinkedIsRanged(maps, m, field);
    LinkedIsUnshared(maps, m, field);
    LinkKeepsLeads(maps, m, field, 0, at, m);
    forall g: Path ensures Holds(Linked(maps, m, field), 0, g) <==> Holds(maps, 0, g) || g == at + [field] {
      LinkAdds(maps, m, field, 0, g);
      if g != [] && g[|g| - 1] == field && Leads(maps, 0, g[..|g| - 1], m) {
        OnePath(maps, 0, g[..|g| - 1], at, m);
        assert g == g[..|g| - 1] + [field];
      }
      if g == at + [field] { assert g[..|g| - 1] == at; }
    }
  }

  lemma Passes(maps: Maps, m: nat, at: Path, field: string)
    requires |maps| > 0 && Ranged(maps) && m < |maps| && Leads(maps, 0, at, m) && field in maps[m]
    ensures Holds(maps, 0, at + [field])
  {
    LeadsOn(maps, 0, at, m, field);
    LeadsHolds(maps, 0, at + [field], maps[m][field]);
  }

  // ---------- reading the paths, with one slice for the whole recursion ----------

  /** As ListedIn, for the paths that start with one of `keys`. */
  ghost predicate ListedUnder(fm: Mask, prefix: Path, keys: set<string>, s: string) {
    exists fs: Path :: Leaf(fm, fs) && fs[0] in keys && s == Join(prefix + fs)
  }

  /** One more key adds its own path, if it ends there, and the paths below it. */
  ghost predicate ListedAt(fm: Mask, prefix: Path, k: string, s: string)
    requires k in fm.children
  {
    (fm.children[k] == EMPTY && s == Join(prefix + [k])) || ListedIn(fm.children[k], prefix + [k], s)
  }

  lemma ListedSplits(fm: Mask, prefix: Path, keys: set<string>, k: string, s: string)
    requires k in fm.children && ListedUnder(fm, prefix, keys + {k}, s)
    ensures ListedUnder(fm, prefix, keys, s) || ListedAt(fm, prefix, k, s)
  {
    var fs: Path :| Leaf(fm, fs) && fs[0] in keys + {k} && s == Join(prefix + fs);
    if fs[0] !in keys {
      if |fs| == 1 {
        assert fs == [k];
      } else {
        assert prefix + fs == prefix + [k] + fs[1..];
        assert Leaf(fm.children[k], fs[1..]);
      }
    }
  }

  lemma ListedJoins(fm: Mask, prefix: Path, keys: set<string>, k: string, s: string)
    requires k in fm.children && ListedAt(fm, prefix, k, s)
    ensures ListedUnder(fm, prefix, keys + {k}, s)
  {
    if ListedIn(fm.children[k], prefix + [k], s) {
      var fs: Path :| Leaf(fm.children[k], fs) && s == Join(prefix + [k] + fs);
      assert ([k] + fs)[1..] == fs && Leaf(fm, [k] + fs) && ([k] + fs)[0] in keys + {k};
      assert prefix + ([k] + fs) == prefix + [k] + fs;
    } else {
      assert Leaf(fm, [k]) && [k][0] in keys + {k};
    }
  }

  lemma ListedNext(fm: Mask, prefix: Path, keys: set<string>, k: string, s: string)
    requires k in fm.children
    ensures ListedUnder(fm, prefix, keys + {k}, s) <==> ListedUnder(fm, prefix, keys, s) || ListedAt(fm, prefix, k, s)
  {
    if ListedUnder(fm, prefix, keys + {k}, s) { ListedSplits(fm, prefix, keys, k, s); }
    if ListedAt(fm, prefix, k, s) { ListedJoins(fm, prefix, keys, k, s); }
    if ListedUnder(fm, prefix, keys, s) {
      var fs: Path :| Leaf(fm, fs) && fs[0] in keys && s == Join(prefix + fs);
      assert fs[0] in keys + {k};
    }
  }

  lemma ListedAll(fm: Mask, prefix: Path, s: string)
    ensures ListedUnder(fm, prefix, fm.children.Keys, s) <==> ListedIn(fm, prefix, s)
    ensures !ListedUnder(fm, prefix, {}, s)
  {
    if ListedIn(fm, prefix, s) {
      var fs: Path :| Leaf(fm, fs) && s == Join(prefix + fs);
      assert fs[0] in fm.children.Keys;
    }
  }

  /** append(path[:n], k): in place while there is room. */
  method Push(path: array<string>, n: nat, k: string, spare: nat) returns (grown: array<string>)
    requires n <= path.Length
    modifies path
    ensures grown == path || fresh(grown)
    ensures n + 1 <= grown.Length && grown[..n + 1] == old(path[..n]) + [k]
    ensures path[..n] == old(path[..n])
  {
    grown := path;
    if n == path.Length {
      grown := new string[n + 1 + spare];
      for i := 0 to n
        invariant path[..n] == old(path[..n])
        invariant grown[..i] == path[..i]
      {
        grown[i] := path[i];
      }
    }
    grown[n] := k;
    assert grown[..n] == old(path[..n]);
  }

  /**
   The mask's paths, in whatever order its maps are ranged over. The callee writes into the slice the
   caller holds, but never below the caller's length.
   */
  method Paths(fm: Mask, path: array<string>, n: nat, spare: nat) returns (paths: seq<string>)
    requires n <= path.Length
    modifies path
    ensures path[..n] == old(path[..n])
    ensures forall s :: s in paths <==> ListedIn(fm, old(path[..n]), s)
    decreases fm
  {
    ghost var prefix := path[..n];
    paths := [];
    var slice, todo := path, fm.children.Keys;
    forall s ensures !ListedUnder(fm, prefix, {}, s) { ListedAll(fm, prefix, s); }
    assert fm.children.Keys - todo == {};
    while todo != {}
      invariant todo <= fm.children.Keys
      invariant slice == path || fresh(slice)
      invariant n <= slice.Length && slice[..n] == prefix && path[..n] == prefix
      invariant forall s :: s in paths <==> ListedUnder(fm, prefix, fm.children.Keys - todo, s)
    {
      var k :| k in todo;
      var child := fm.children[k];
      slice := Push(slice, n, k, spare);
      var more := [];
      if |child.children| == 0 { more := [Join(slice[..n + 1])]; }
      var deeper := Paths(child, slice, n + 1, spare);
      assert slice[..n] == slice[..n + 1][..n];
      ghost var done := fm.children.Keys - todo;
      todo := todo - {k};
      assert fm.children.Keys - todo == done + {k};
      forall s ensures s in paths + (more + deeper) <==> ListedUnder(fm, prefix, done + {k}, s) {
        ListedNext(fm, prefix, done, k, s);
      }
      paths := paths + (more + deeper);
    }
    assert fm.children.Keys - todo == fm.children.Keys;
    forall s ensures s in paths <==> ListedIn(fm, prefix, s) { ListedAll(fm, prefix, s); }
  }
}
