/** Directory trees with the algebra of paths into them, and the bookkeeping of
    a stack of paths still to be visited. */
module OglTree {
  import opened Wire

  const SLASH: byte := 47

  /** A file name: C-string bytes without the path separator. */
  type Name = s: bytes | s != [] && SLASH !in s && 0 !in s witness [97]

  type Path = seq<Name>

  datatype Tree<L, D> = Leaf(leaf: L) | Dir(info: D, entries: map<Name, Tree<L, D>>)

  predicate Has<L, D>(t: Tree<L, D>, p: Path) {
    p == [] || (t.Dir? && p[0] in t.entries && Has(t.entries[p[0]], p[1..]))
  }

  function At<L, D>(t: Tree<L, D>, p: Path): Tree<L, D>
    requires Has(t, p)
  {
    if p == [] then t else At(t.entries[p[0]], p[1..])
  }

  predicate HasDir<L, D>(t: Tree<L, D>, p: Path) {
    Has(t, p) && At(t, p).Dir?
  }

  /** The tree with another subtree at p. */
  function PutAt<L, D>(t: Tree<L, D>, p: Path, x: Tree<L, D>): Tree<L, D>
    requires Has(t, p)
  {
    if p == [] then x
    else Dir(t.info, t.entries[p[0] := PutAt(t.entries[p[0]], p[1..], x)])
  }

  /** All directories of the tree. */
  function DirPaths<L, D>(t: Tree<L, D>): set<Path> {
    if t.Leaf? then {}
    else {[]} + set n, p | n in t.entries && p in DirPaths(t.entries[n]) :: [n] + p
  }

  lemma {:induction false} DirPathsAre<L, D>(t: Tree<L, D>, p: Path)
    ensures p in DirPaths(t) <==> HasDir(t, p)
  {
    if t.Dir? && p != [] {
      if p[0] in t.entries {
        DirPathsAre(t.entries[p[0]], p[1..]);
      }
      assert p == [p[0]] + p[1..];
    }
  }

  lemma {:induction false} AtPut<L, D>(t: Tree<L, D>, p: Path, x: Tree<L, D>)
    requires Has(t, p)
    ensures Has(PutAt(t, p, x), p) && At(PutAt(t, p, x), p) == x
  {
    if p != [] {
      AtPut(t.entries[p[0]], p[1..], x);
    }
  }

  lemma {:induction false} PutPut<L, D>(t: Tree<L, D>, p: Path, x: Tree<L, D>, y: Tree<L, D>)
    requires Has(t, p)
    ensures Has(PutAt(t, p, x), p) && PutAt(PutAt(t, p, x), p, y) == PutAt(t, p, y)
  {
    if p != [] {
      PutPut(t.entries[p[0]], p[1..], x, y);
    }
  }

  lemma {:induction false} PutSame<L, D>(t: Tree<L, D>, p: Path)
    requires Has(t, p)
    ensures PutAt(t, p, At(t, p)) == t
  {
    if p != [] {
      PutSame(t.entries[p[0]], p[1..]);
    }
  }

  lemma {:induction false} PutJoin<L, D>(t: Tree<L, D>, p: Path, q: Path, x: Tree<L, D>)
    requires Has(t, p + q)
    ensures Has(t, p) && Has(At(t, p), q)
    ensures PutAt(t, p + q, x) == PutAt(t, p, PutAt(At(t, p), q, x))
  {
    if p == [] {
      assert p + q == q;
    } else {
      assert (p + q)[0] == p[0] && (p + q)[1..] == p[1..] + q;
      PutJoin(t.entries[p[0]], p[1..], q, x);
    }
  }

  /** A path and then one name. */
  lemma {:induction false} HasChild<L, D>(t: Tree<L, D>, p: Path, n: Name)
    ensures Has(t, p + [n]) <==> HasDir(t, p) && n in At(t, p).entries
    ensures Has(t, p + [n]) ==> At(t, p + [n]) == At(t, p).entries[n]
  {
    if p == [] {
      assert p + [n] == [n] && [n][1..] == [];
    } else {
      assert (p + [n])[0] == p[0] && (p + [n])[1..] == p[1..] + [n];
      if t.Dir? && p[0] in t.entries {
        HasChild(t.entries[p[0]], p[1..], n);
      }
    }
  }

  lemma {:induction false} PutChild<L, D>(t: Tree<L, D>, p: Path, n: Name, x: Tree<L, D>)
    requires Has(t, p + [n])
    ensures HasDir(t, p)
    ensures var d := At(t, p); PutAt(t, p + [n], x) == PutAt(t, p, Dir(d.info, d.entries[n := x]))
  {
    HasChild(t, p, n);
    if p == [] {
      assert p + [n] == [n] && [n][1..] == [];
    } else {
      assert (p + [n])[0] == p[0] && (p + [n])[1..] == p[1..] + [n];
      PutChild(t.entries[p[0]], p[1..], n, x);
    }
  }

  /** A longer path splits anywhere. */
  lemma {:induction false} HasJoin<L, D>(t: Tree<L, D>, p: Path, q: Path)
    ensures Has(t, p + q) <==> Has(t, p) && Has(At(t, p), q)
    ensures Has(t, p + q) ==> At(t, p + q) == At(At(t, p), q)
  {
    if p == [] {
      assert p + q == q;
    } else {
      assert (p + q)[0] == p[0] && (p + q)[1..] == p[1..] + q;
      if t.Dir? && p[0] in t.entries {
        HasJoin(t.entries[p[0]], p[1..], q);
      }
    }
  }

  /** Elsewhere nothing changes: not below p, and not what is at q itself
      unless p is below it. */
  lemma {:induction false} AtPutElsewhere<L, D>(t: Tree<L, D>, p: Path, x: Tree<L, D>, q: Path)
    requires Has(t, p) && !(p <= q)
    ensures Has(PutAt(t, p, x), q) <==> Has(t, q)
    ensures Has(t, q) && !(q <= p) ==> At(PutAt(t, p, x), q) == At(t, q)
    ensures HasDir(PutAt(t, p, x), q) <==> HasDir(t, q)
  {
    if q != [] && p[0] == q[0] {
      AtPutElsewhere(t.entries[p[0]], p[1..], x, q[1..]);
      assert p[1..] <= q[1..] ==> p <= q;
      assert q[1..] <= p[1..] ==> q <= p;
    }
  }

  /** An ancestor keeps its own fields and names when something below changes. */
  lemma {:induction false} AtPutAncestor<L, D>(t: Tree<L, D>, p: Path, x: Tree<L, D>, q: Path)
    requires Has(t, p) && q < p
    ensures HasDir(t, q) && HasDir(PutAt(t, p, x), q)
    ensures At(PutAt(t, p, x), q).info == At(t, q).info
    ensures At(PutAt(t, p, x), q).entries.Keys == At(t, q).entries.Keys
  {
    if q != [] {
      assert p[0] == q[0] && q[1..] < p[1..];
      AtPutAncestor(t.entries[p[0]], p[1..], x, q[1..]);
    }
  }

  lemma DirOnTheWay<L, D>(e: Tree<L, D>, p: Path, at: Path)
    requires HasDir(e, at) && p <= at
    ensures HasDir(e, p)
  {
    hide Has, At;
    HasJoin(e, p, at[|p|..]);
    assert at == p + at[|p|..];
    LeafEnds(At(e, p), at[|p|..]);
  }

  lemma LeafEnds<L, D>(e: Tree<L, D>, p: Path)
    requires HasDir(e, p)
    ensures e.Dir?
  {
  }

  /** What is strictly below p depends on the entries at p only. */
  lemma AtBelow<L, D>(t: Tree<L, D>, p: Path, info: D, q: Path)
    requires HasDir(t, p) && p < q
    ensures var t' := PutAt(t, p, Dir(info, At(t, p).entries));
      (Has(t', q) <==> Has(t, q)) && (Has(t, q) ==> At(t', q) == At(t, q))
  {
    hide Has, At, PutAt;
    var x := Dir(info, At(t, p).entries);
    AtPut(t, p, x);
    var r := q[|p|..];
    assert q == p + r;
    HasJoin(t, p, r);
    HasJoin(PutAt(t, p, x), p, r);
    SameEntriesSameBelow(At(t, p), x, r);
  }

  lemma SameEntriesSameBelow<L, D>(a: Tree<L, D>, b: Tree<L, D>, r: Path)
    requires a.Dir? && b.Dir? && a.entries == b.entries && r != []
    ensures (Has(a, r) <==> Has(b, r)) && (Has(a, r) ==> At(a, r) == At(b, r))
  {
  }

  // ------------------------------------------------------------------
  // A stack of paths to visit, and the set of those visited.

  /** No path on the stack leads to another one. */
  ghost predicate Apart(stack: seq<Path>) {
    forall i, j :: 0 <= i < |stack| && 0 <= j < |stack| && i != j ==> !(stack[i] <= stack[j])
  }

  /** No path on the stack leads back to a visited one. */
  ghost predicate Ahead(stack: seq<Path>, visited: set<Path>) {
    forall i, v :: 0 <= i < |stack| && v in visited ==> !(stack[i] <= v)
  }

  function Below(p: Path, names: seq<Name>): (r: seq<Path>)
    ensures |r| == |names| && forall k :: 0 <= k < |r| ==> r[k] == p + [names[k]]
  {
    seq(|names|, k requires 0 <= k < |names| => p + [names[k]])
  }

  predicate Distinct<T(==)>(s: seq<T>) {
    forall i, j :: 0 <= i < j < |s| ==> s[i] != s[j]
  }

  /** Replacing the top of the stack by some of its children keeps the stack
      in order, and the top becomes visited. */
  lemma StackStep(stack: seq<Path>, visited: set<Path>, p: Path, names: seq<Name>)
    requires Apart(stack + [p]) && Ahead(stack + [p], visited) && Distinct(names)
    ensures p !in visited
    ensures Apart(stack + Below(p, names)) && Ahead(stack + Below(p, names), visited + {p})
  {
    var old', new' := stack + [p], stack + Below(p, names);
    assert old'[|stack|] == p;
    assert p <= p;
    forall i | 0 <= i < |stack| ensures !(stack[i] <= p) && !(p <= stack[i]) {
      assert old'[i] == stack[i];
    }
    forall k | 0 <= k < |names| ensures new'[|stack| + k] == p + [names[k]] && p <= p + [names[k]] {
    }
    forall i, j | 0 <= i < |new'| && 0 <= j < |new'| && i != j ensures !(new'[i] <= new'[j]) {
      var a, b := new'[i], new'[j];
      if i < |stack| && j < |stack| {
        assert old'[i] == a && old'[j] == b;
      } else if i < |stack| {
        assert p <= b && |b| == |p| + 1;
        assert a <= b ==> a == b || a <= p;
      } else if j < |stack| {
        assert a <= b ==> p <= b;
      } else {
        assert a[|p|] == names[i - |stack|] && b[|p|] == names[j - |stack|];
      }
    }
    forall i, v | 0 <= i < |new'| && v in visited + {p} ensures !(new'[i] <= v) {
      if i < |stack| {
        assert old'[i] == stack[i];
      } else {
        assert new'[i] <= v ==> p <= v;
        assert v in visited ==> !(old'[|stack|] <= v);
      }
    }
  }

  // ------------------------------------------------------------------
  // Finishing a tree from the stack: each path still on it gets its final
  // subtree.

  ghost function Finish<L, D>(t: Tree<L, D>, stack: seq<Path>, final: Path -> Tree<L, D>): Tree<L, D>
    decreases |stack|
  {
    if stack == [] then t
    else
      var p := stack[|stack| - 1];
      Finish(if Has(t, p) then PutAt(t, p, final(p)) else t, stack[..|stack| - 1], final)
  }

  lemma FinishTop<L, D>(t: Tree<L, D>, stack: seq<Path>, p: Path, final: Path -> Tree<L, D>)
    requires Has(t, p)
    ensures Finish(t, stack + [p], final) == Finish(PutAt(t, p, final(p)), stack, final)
  {
    assert (stack + [p])[..|stack|] == stack;
  }

  /** What remains to be filled in at p is what the named children of d lack. */
  ghost predicate DiffersAt<L, D>(d: Tree<L, D>, p: Path, names: seq<Name>, final: Path -> Tree<L, D>)
    requires d.Dir?
  {
    var f := final(p);
    && f.Dir? && f.info == d.info && f.entries.Keys == d.entries.Keys
    && (forall k :: 0 <= k < |names| ==> names[k] in d.entries && f.entries[names[k]] == final(p + [names[k]]))
    && (forall n :: n in d.entries && n !in names ==> d.entries[n] == f.entries[n])
  }

  lemma OneChildFilled<L, D>(d: Tree<L, D>, p: Path, names: seq<Name>, final: Path -> Tree<L, D>, n: Name)
    requires d.Dir? && DiffersAt(d, p, names + [n], final)
    ensures DiffersAt(Dir(d.info, d.entries[n := final(p + [n])]), p, names, final)
  {
    var all := names + [n];
    assert all[|names|] == n;
    forall k | 0 <= k < |names| ensures names[k] in d.entries && final(p).entries[names[k]] == final(p + [names[k]]) {
      assert all[k] == names[k];
    }
  }

  /** Visiting the children that differ finishes the parent. */
  lemma {:induction false} FinishChildren<L, D>(t: Tree<L, D>, stack: seq<Path>, p: Path, names: seq<Name>,
                                                final: Path -> Tree<L, D>)
    requires HasDir(t, p) && DiffersAt(At(t, p), p, names, final)
    ensures Finish(t, stack + Below(p, names), final) == Finish(t, stack + [p], final)
    decreases |names|
  {
    hide Finish, PutAt, DiffersAt;
    var d, f := At(t, p), final(p);
    if names == [] {
      assert d == f by { NothingDiffers(d, p, final); }
      PutSame(t, p);
      FinishTop(t, stack, p, final);
      assert stack + Below(p, names) == stack;
    } else {
      var rest, n := names[..|names| - 1], names[|names| - 1];
      assert names == rest + [n];
      var c, d' := p + [n], Dir(d.info, d.entries[n := final(p + [n])]);
      assert n in d.entries by { LastDiffers(d, p, rest, final, n); }
      HasChild(t, p, n);
      PutChild(t, p, n, final(c));
      assert stack + Below(p, names) == stack + Below(p, rest) + [c];
      FinishTop(t, stack + Below(p, rest), c, final);
      var t' := PutAt(t, p, d');
      AtPut(t, p, d');
      OneChildFilled(d, p, rest, final, n);
      FinishChildren(t', stack, p, rest, final);
      FinishTop(t', stack, p, final);
      PutPut(t, p, d', f);
      FinishTop(t, stack, p, final);
    }
  }

  lemma NothingDiffers<L, D>(d: Tree<L, D>, p: Path, final: Path -> Tree<L, D>)
    requires d.Dir? && DiffersAt(d, p, [], final)
    ensures d == final(p)
  {
  }

  lemma LastDiffers<L, D>(d: Tree<L, D>, p: Path, names: seq<Name>, final: Path -> Tree<L, D>, n: Name)
    requires d.Dir? && DiffersAt(d, p, names + [n], final)
    ensures n in d.entries
  {
    assert (names + [n])[|names|] == n;
  }
}
