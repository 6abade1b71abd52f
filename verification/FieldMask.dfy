/** Field masks: a trie of nested maps built from dotted paths, and the paths read back from it. */
module FieldMask {
  type Path = seq<string>

  datatype Mask = Mask(children: map<string, Mask>)

  const EMPTY := Mask(map[])

  // ---------- dotted paths ----------

  function Join(fs: Path): string
    requires fs != []
  {
    if |fs| == 1 then fs[0] else fs[0] + "." + Join(fs[1..])
  }

  /** strings.Split by dot: never empty; the empty string gives one empty field. */
  function Split(s: string): (fs: Path)
    ensures fs != []
    decreases |s|
  {
    if s == "" then [""]
    else if s[0] == '.' then [""] + Split(s[1..])
    else var rest := Split(s[1..]); [[s[0]] + rest[0]] + rest[1..]
  }

  lemma {:induction false} JoinSplit(s: string)
    ensures Join(Split(s)) == s
    decreases |s|
  {
    if s != "" {
      JoinSplit(s[1..]);
      var rest := Split(s[1..]);
      if s[0] == '.' {
        assert ([""] + rest)[1..] == rest;
        assert "" + "." + s[1..] == s;
      } else {
        var fs := [[s[0]] + rest[0]] + rest[1..];
        assert fs[1..] == rest[1..];
        if |rest| == 1 {
          assert [s[0]] + s[1..] == s;
        } else {
          assert ([s[0]] + rest[0]) + "." + Join(rest[1..]) == [s[0]] + (rest[0] + "." + Join(rest[1..]));
        }
      }
    }
  }

  // ---------- the trie ----------

  predicate Has(m: Mask, fs: Path) {
    fs == [] || (fs[0] in m.children && Has(m.children[fs[0]], fs[1..]))
  }

  /** A path that is in the mask and goes no further. */
  predicate Leaf(m: Mask, fs: Path) {
    fs != [] && fs[0] in m.children
    && (if |fs| == 1 then m.children[fs[0]] == EMPTY else Leaf(m.children[fs[0]], fs[1..]))
  }

  lemma {:induction false} LeafIff(m: Mask, fs: Path)
    ensures Leaf(m, fs) <==> fs != [] && Has(m, fs) && forall k :: !Has(m, fs + [k])
  {
    if fs != [] && fs[0] in m.children {
      var child := m.children[fs[0]];
      forall k ensures Has(m, fs + [k]) <==> Has(child, fs[1..] + [k]) { assert (fs + [k])[1..] == fs[1..] + [k]; }
      if |fs| == 1 {
        assert fs[1..] == [];
        forall k ensures Has(child, [] + [k]) <==> k in child.children { assert ([] + [k])[1..] == []; }
        assert child == EMPTY <==> forall k :: k !in child.children by {
          if forall k :: k !in child.children { assert child.children == map[]; }
        }
      } else {
        LeafIff(child, fs[1..]);
      }
    }
  }

  /** A mask is determined by the paths in it. */
  lemma {:induction false} PathsDetermine(a: Mask, b: Mask)
    requires forall g: Path :: Has(a, g) <==> Has(b, g)
    ensures a == b
  {
    forall k ensures k in a.children <==> k in b.children {
      assert [k][1..] == [];
      assert Has(a, [k]) <==> Has(b, [k]);
    }
    forall k | k in a.children ensures a.children[k] == b.children[k] {
      forall g: Path ensures Has(a.children[k], g) <==> Has(b.children[k], g) {
        assert ([k] + g)[1..] == g;
        assert Has(a, [k] + g) <==> Has(b, [k] + g);
      }
      PathsDetermine(a.children[k], b.children[k]);
    }
    assert a.children == b.children;
  }

  /** Adding one path, as the nested maps end up. */
  function Insert(m: Mask, fs: Path): Mask
    decreases |fs|
  {
    if fs == [] then m
    else
      var child := if fs[0] in m.children then m.children[fs[0]] else EMPTY;
      Mask(m.children[fs[0] := Insert(child, fs[1..])])
  }

  function BuildOn(m: Mask, paths: seq<string>): Mask
    decreases |paths|
  {
    if paths == [] then m else BuildOn(Insert(m, Split(paths[0])), paths[1..])
  }

  lemma {:induction false} InsertAdds(m: Mask, fs: Path, g: Path)
    ensures Has(Insert(m, fs), g) <==> Has(m, g) || g <= fs
    decreases |fs|
  {
    if fs != [] && g != [] {
      if g[0] == fs[0] {
        var child := if fs[0] in m.children then m.children[fs[0]] else EMPTY;
        InsertAdds(child, fs[1..], g[1..]);
        assert g <= fs <==> g[1..] <= fs[1..];
        if g[1..] == [] { assert g[1..] <= fs[1..]; }
      }
    }
  }

  /** Some path of the list runs at least as far as `g`. */
  predicate Reached(paths: seq<string>, g: Path) {
    exists i :: 0 <= i < |paths| && g <= Split(paths[i])
  }

  lemma {:induction false} BuildHas(m: Mask, paths: seq<string>, g: Path)
    ensures Has(BuildOn(m, paths), g) <==> Has(m, g) || Reached(paths, g)
    decreases |paths|
  {
    if paths != [] {
      InsertAdds(m, Split(paths[0]), g);
      BuildHas(Insert(m, Split(paths[0])), paths[1..], g);
      if Reached(paths[1..], g) {
        var i :| 0 <= i < |paths| - 1 && g <= Split(paths[1..][i]);
        assert paths[i + 1] == paths[1..][i];
      }
      if Reached(paths, g) && !(g <= Split(paths[0])) {
        var i :| 0 <= i < |paths| && g <= Split(paths[i]);
        assert paths[1..][i - 1] == paths[i];
      }
    }
  }

  // ---------- reading paths back ----------

  /** No path of the list runs strictly further than this one. */
  predicate Maximal(paths: seq<string>, p: string) {
    p in paths && forall i :: 0 <= i < |paths| ==> !(Split(p) < Split(paths[i]))
  }

  ghost predicate ListedIn(m: Mask, prefix: Path, s: string) {
    exists fs: Path :: Leaf(m, fs) && s == Join(prefix + fs)
  }

  lemma LeavesAreMaximal(paths: seq<string>, fs: Path)
    ensures Leaf(BuildOn(EMPTY, paths), fs) <==>
      fs != [] && Reached(paths, fs) && forall k :: !Reached(paths, fs + [k])
  {
    var m := BuildOn(EMPTY, paths);
    LeafIff(m, fs);
    BuildHas(EMPTY, paths, fs);
    forall k ensures Has(m, fs + [k]) <==> Reached(paths, fs + [k]) { BuildHas(EMPTY, paths, fs + [k]); }
  }

  lemma ExtendsIff(fs: Path, gs: Path)
    ensures fs < gs <==> exists k :: fs + [k] <= gs
  {
    if fs < gs { assert fs + [gs[|fs|]] <= gs; }
    forall k | fs + [k] <= gs ensures fs < gs { assert fs <= fs + [k]; }
  }

  /** A leaf of the built mask is the split of a maximal path, and each maximal path is one. */
  lemma MaximalIff(paths: seq<string>, p: string)
    ensures Maximal(paths, p) <==> Leaf(BuildOn(EMPTY, paths), Split(p)) && p in paths
  {
    var fs := Split(p);
    LeavesAreMaximal(paths, fs);
    if p in paths {
      var i :| 0 <= i < |paths| && paths[i] == p;
      assert Reached(paths, fs);
    }
    forall i | 0 <= i < |paths| ensures fs < Split(paths[i]) <==> exists k :: fs + [k] <= Split(paths[i]) {
      ExtendsIff(fs, Split(paths[i]));
    }
    if k :| Reached(paths, fs + [k]) {
      var i :| 0 <= i < |paths| && fs + [k] <= Split(paths[i]);
      assert fs < Split(paths[i]);
    }
  }

  lemma LeafIsSplit(paths: seq<string>, fs: Path)
    requires Leaf(BuildOn(EMPTY, paths), fs)
    ensures exists p :: p in paths && Split(p) == fs
  {
    LeavesAreMaximal(paths, fs);
    var i :| 0 <= i < |paths| && fs <= Split(paths[i]);
    ExtendsIff(fs, Split(paths[i]));
    assert paths[i] in paths;
  }

  /** The paths of the mask built from a list are exactly those of its paths that no other strictly extends. */
  lemma PathsOfBuild(paths: seq<string>, s: string)
    ensures ListedIn(BuildOn(EMPTY, paths), [], s) <==> Maximal(paths, s)
  {
    var m := BuildOn(EMPTY, paths);
    MaximalIff(paths, s);
    JoinSplit(s);
    assert [] + Split(s) == Split(s);
    if ListedIn(m, [], s) {
      var fs: Path :| Leaf(m, fs) && s == Join([] + fs);
      assert [] + fs == fs;
      LeafIsSplit(paths, fs);
      var p :| p in paths && Split(p) == fs;
      JoinSplit(p);
    }
  }

  /** Lists that reach equally far build the same mask: order and repeats do not matter, nor do extended paths. */
  lemma BuildDependsOnReach(ps: seq<string>, qs: seq<string>)
    requires forall g: Path :: Reached(ps, g) <==> Reached(qs, g)
    ensures BuildOn(EMPTY, ps) == BuildOn(EMPTY, qs)
  {
    var a, b := BuildOn(EMPTY, ps), BuildOn(EMPTY, qs);
    forall g: Path ensures Has(a, g) <==> Has(b, g) {
      BuildHas(EMPTY, ps, g);
      BuildHas(EMPTY, qs, g);
    }
    PathsDetermine(a, b);
  }

  lemma BuildIgnoresOrder(ps: seq<string>, qs: seq<string>)
    requires forall p :: p in ps <==> p in qs
    ensures BuildOn(EMPTY, ps) == BuildOn(EMPTY, qs)
  {
    forall g: Path ensures Reached(ps, g) <==> Reached(qs, g) {
      if Reached(ps, g) {
        var i :| 0 <= i < |ps| && g <= Split(ps[i]);
        assert ps[i] in qs;
      }
      if Reached(qs, g) {
        var i :| 0 <= i < |qs| && g <= Split(qs[i]);
        assert qs[i] in ps;
      }
    }
    BuildDependsOnReach(ps, qs);
  }

  function Longest(paths: seq<string>): (n: nat)
    ensures forall i :: 0 <= i < |paths| ==> |Split(paths[i])| <= n
  {
    if paths == [] then 0
    else
      var n := Longest(paths[1..]);
      assert forall i :: 0 < i < |paths| ==> paths[i] == paths[1..][i - 1];
      if |Split(paths[0])| > n then |Split(paths[0])| else n
  }

  /** Whatever a list reaches, one of its maximal paths reaches. */
  lemma {:induction false} MaximalReaches(paths: seq<string>, i: nat) returns (j: nat)
    requires i < |paths|
    ensures j < |paths| && Maximal(paths, paths[j]) && Split(paths[i]) <= Split(paths[j])
    decreases Longest(paths) - |Split(paths[i])|
  {
    if Maximal(paths, paths[i]) { return i; }
    var k :| 0 <= k < |paths| && Split(paths[i]) < Split(paths[k]);
    assert |Split(paths[k])| > |Split(paths[i])|;
    j := MaximalReaches(paths, k);
  }

  /** Building again from the paths of a mask gives the mask back. */
  lemma RebuildIsIdentity(paths: seq<string>, listed: seq<string>)
    requires forall s :: s in listed <==> ListedIn(BuildOn(EMPTY, paths), [], s)
    ensures BuildOn(EMPTY, listed) == BuildOn(EMPTY, paths)
  {
    forall s ensures s in listed <==> Maximal(paths, s) { PathsOfBuild(paths, s); }
    forall g: Path ensures Reached(listed, g) <==> Reached(paths, g) {
      if Reached(listed, g) {
        var i :| 0 <= i < |listed| && g <= Split(listed[i]);
        assert listed[i] in listed && Maximal(paths, listed[i]);
        var j :| 0 <= j < |paths| && paths[j] == listed[i];
      }
      if Reached(paths, g) {
        var i :| 0 <= i < |paths| && g <= Split(paths[i]);
        var j := MaximalReaches(paths, i);
        assert paths[j] in listed;
      }
    }
    BuildDependsOnReach(listed, paths);
  }
}
