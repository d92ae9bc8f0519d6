/** Directory comparison and the three-way merge. */
module OglMerge {
  import opened Wire
  import opened OglTree
  import opened OglPath
  import opened OglRepo

  // ------------------------------------------------------------------
  // What a tree says, without hashes of directories and flags.

  datatype LeafContent = RemovedC | NonexistentC | LocalC | FileC(hash: nat) | SymlinkC(hash: nat)

  datatype NoInfo = NoInfo

  type Content = Tree<LeafContent, NoInfo>

  function LeafOf(l: LeafState): LeafContent {
    match l
    case Removed => RemovedC
    case Nonexistent => NonexistentC
    case Local => LocalC
    case File(hash, _, _) => FileC(hash)
    case Symlink(hash, _, _) => SymlinkC(hash)
  }

  function ContentOf(e: Entry): Content {
    match e
    case Leaf(l) => Leaf(LeafOf(l))
    case Dir(_, entries) => Dir(NoInfo, map n | n in entries :: ContentOf(entries[n]))
  }

  lemma {:induction false} ContentAt(e: Entry, p: Path)
    ensures Has(ContentOf(e), p) <==> Has(e, p)
    ensures Has(e, p) ==> At(ContentOf(e), p) == ContentOf(At(e, p))
  {
    if p != [] && e.Dir? && p[0] in e.entries {
      ContentAt(e.entries[p[0]], p[1..]);
    }
  }

  lemma {:induction false} ContentPut(e: Entry, p: Path, x: Entry)
    requires Has(e, p)
    ensures Has(ContentOf(e), p)
    ensures ContentOf(PutAt(e, p, x)) == PutAt(ContentOf(e), p, ContentOf(x))
  {
    if p != [] {
      ContentPut(e.entries[p[0]], p[1..], x);
      var n := p[0];
      var es := e.entries[n := PutAt(e.entries[n], p[1..], x)];
      assert ContentOf(PutAt(e, p, x)).entries == ContentOf(e).entries[n := ContentOf(es[n])];
    }
  }

  // ------------------------------------------------------------------
  // Marking and cloning.

  /** mark_modified on the directory at p: it and all its ancestors. */
  function Touch(e: Entry, p: Path): Entry
    requires HasDir(e, p)
  {
    Dir(e.info.(modified := true),
        if p == [] then e.entries else e.entries[p[0] := Touch(e.entries[p[0]], p[1..])])
  }

  lemma {:induction false} TouchKeeps(e: Entry, p: Path)
    requires HasDir(e, p)
    ensures ContentOf(Touch(e, p)) == ContentOf(e)
  {
    if p != [] {
      TouchKeeps(e.entries[p[0]], p[1..]);
      assert ContentOf(Touch(e, p)).entries == ContentOf(e).entries;
    }
  }

  /** Walking past a touched directory. */
  lemma {:induction false} TouchAt(e: Entry, p: Path, q: Path)
    requires HasDir(e, p)
    ensures Has(Touch(e, p), q) <==> Has(e, q)
    ensures HasDir(Touch(e, p), q) <==> HasDir(e, q)
    ensures Has(e, q) && !(q <= p) ==> At(Touch(e, p), q) == At(e, q)
    ensures HasDir(e, q) && q == p ==> At(Touch(e, p), q).entries == At(e, q).entries
  {
    if q != [] && p != [] && q[0] == p[0] {
      TouchAt(e.entries[p[0]], p[1..], q[1..]);
      assert q[1..] <= p[1..] ==> q <= p;
    }
  }

  /** A directory made by clone_nocopy: its hash is left unset, which `junk`
      stands for. */
  function Shell(e: Entry, junk: nat): Entry
    requires e.Dir?
  {
    Dir(e.info.(hash := junk), map[])
  }

  function CloneLeaf(l: LeafState): LeafState {
    match l
    case Symlink(hash, perms, _) => Symlink(hash, perms, true)
    case _ => l
  }

  /** ogl_entry::clone. */
  function Clone(e: Entry, junk: nat): Entry {
    match e
    case Leaf(l) => Leaf(CloneLeaf(l))
    case Dir(d, entries) => Dir(d.(hash := junk), map n | n in entries :: Clone(entries[n], junk))
  }

  lemma {:induction false} CloneKeeps(e: Entry, junk: nat)
    ensures ContentOf(Clone(e, junk)) == ContentOf(e)
  {
    if e.Dir? {
      forall n | n in e.entries
        ensures ContentOf(Clone(e.entries[n], junk)) == ContentOf(e.entries[n])
      {
        CloneKeeps(e.entries[n], junk);
      }
      assert ContentOf(Clone(e, junk)).entries == ContentOf(e).entries;
    }
  }

  /** The names of a map, listed in some order. */
  method Listing(keys: set<Name>) returns (names: seq<Name>)
    ensures Distinct(names) && forall n :: n in names <==> n in keys
  {
    names := [];
    var rest := keys;
    while rest != {}
      invariant rest <= keys && Distinct(names)
      invariant forall n :: n in names <==> n in keys && n !in rest
      decreases rest
    {
      var n :| n in rest;
      rest := rest - {n};
      names := names + [n];
    }
  }

  /** The children that copy_to puts into a directory before it descends. */
  function CopiedChildren(e: Entry, junk: nat): map<Name, Entry>
    requires e.Dir?
  {
    map n | n in e.entries :: if e.entries[n].Dir? then Shell(e.entries[n], junk) else Clone(e.entries[n], junk)
  }

  ghost function CloneAt(e: Entry, junk: nat): Path -> Entry {
    p => if Has(e, p) then Clone(At(e, p), junk) else Leaf(Removed)
  }

  /** ogl_dir::clone with the worklist of copy_to: the result is the clone. */
  method CloneDir(src: Entry, junk: nat) returns (dst: Entry)
    requires src.Dir?
    ensures dst == Clone(src, junk)
  {
    hide Apart, Ahead;
    dst := Shell(src, junk);
    var work: seq<Path> := [[]];
    ghost var done: set<Path> := {};
    ghost var final := CloneAt(src, junk);
    CloneStart(src, junk);
    while work != []
      invariant Apart(work) && Ahead(work, done) && done <= DirPaths(src)
      invariant forall i :: 0 <= i < |work| ==> HasDir(src, work[i]) && Has(dst, work[i])
                                                && At(dst, work[i]) == Shell(At(src, work[i]), junk)
      invariant Finish(dst, work, final) == Clone(src, junk)
      decreases DirPaths(src) - done
    {
      hide Finish, PutAt, CloneAt, CopiedChildren, Has, At;
      var p := work[|work| - 1];
      ghost var stack := work[..|work| - 1];
      assert work == stack + [p];
      var s := At(src, p);
      var filled := Dir(s.info.(hash := junk), CopiedChildren(s, junk));
      ghost var before := dst;
      dst := PutAt(dst, p, filled);
      var all := Listing(s.entries.Keys);
      var names := DirectoriesAmong(s, all);
      CopyStep(src, junk, before, stack, done, p, names);
      work := work[..|work| - 1] + Below(p, names);
      DirPathsAre(src, p);
      done := done + {p};
    }
  }

  lemma CloneStart(src: Entry, junk: nat)
    requires src.Dir?
    ensures Apart([[]]) && Ahead([[]], {})
    ensures Finish(Shell(src, junk), [[]], CloneAt(src, junk)) == Clone(src, junk)
  {
    var none: seq<Path> := [];
    FinishTop(Shell(src, junk), none, [], CloneAt(src, junk));
    assert none + [[]] == [[]];
  }

  method DirectoriesAmong(e: Entry, all: seq<Name>) returns (names: seq<Name>)
    requires e.Dir? && Distinct(all) && forall n :: n in all <==> n in e.entries
    ensures Distinct(names) && forall n :: n in names <==> n in e.entries && e.entries[n].Dir?
  {
    names := [];
    for i := 0 to |all|
      invariant Distinct(names)
      invariant forall n :: n in names <==> n in all[..i] && e.entries[n].Dir?
    {
      assert all[i] !in all[..i];
      if e.entries[all[i]].Dir? {
        names := names + [all[i]];
      }
    }
  }

  lemma CopyStep(src: Entry, junk: nat, dst: Entry, stack: seq<Path>, done: set<Path>, p: Path, names: seq<Name>)
    requires Apart(stack + [p]) && Ahead(stack + [p], done) && Distinct(names)
    requires HasDir(src, p) && forall n :: n in names <==> n in At(src, p).entries && At(src, p).entries[n].Dir?
    requires forall i :: 0 <= i < |stack| ==> HasDir(src, stack[i]) && Has(dst, stack[i])
                                              && At(dst, stack[i]) == Shell(At(src, stack[i]), junk)
    requires Has(dst, p)
    ensures var s := At(src, p);
      var dst', work' := PutAt(dst, p, Dir(s.info.(hash := junk), CopiedChildren(s, junk))), stack + Below(p, names);
      && p !in done && Apart(work') && Ahead(work', done + {p})
      && (forall i :: 0 <= i < |work'| ==> HasDir(src, work'[i]) && Has(dst', work'[i])
                                           && At(dst', work'[i]) == Shell(At(src, work'[i]), junk))
      && Finish(dst', work', CloneAt(src, junk)) == Finish(dst, stack + [p], CloneAt(src, junk))
  {
    hide Finish, PutAt, Apart, Ahead;
    var s, final := At(src, p), CloneAt(src, junk);
    var d := Dir(s.info.(hash := junk), CopiedChildren(s, junk));
    var dst', work' := PutAt(dst, p, d), stack + Below(p, names);
    StackStep(stack, done, p, names);
    AtPut(dst, p, d);
    forall i | 0 <= i < |work'|
      ensures HasDir(src, work'[i]) && Has(dst', work'[i]) && At(dst', work'[i]) == Shell(At(src, work'[i]), junk)
    {
      if i < |stack| {
        assert work'[i] == stack[i];
        StackApart(stack, p, i);
        AtPutElsewhere(dst, p, d, stack[i]);
      } else {
        var n := names[i - |stack|];
        assert work'[i] == p + [n];
        HasChild(src, p, n);
        HasChild(dst', p, n);
      }
    }
    assert DiffersAt(d, p, names, final) by {
      forall k | 0 <= k < |names| ensures final(p).entries[names[k]] == final(p + [names[k]]) {
        HasChild(src, p, names[k]);
      }
    }
    FinishChildren(dst', stack, p, names, final);
    FinishTop(dst', stack, p, final);
    PutPut(dst, p, d, final(p));
    FinishTop(dst, stack, p, final);
  }

  lemma StackApart(stack: seq<Path>, p: Path, i: nat)
    requires Apart(stack + [p]) && i < |stack|
    ensures !(stack[i] <= p) && !(p <= stack[i])
  {
    var s := stack + [p];
    assert s[i] == stack[i] && s[|stack|] == p;
  }

  // ------------------------------------------------------------------
  // Differences.

  datatype DiffOp = Same | Add | Rm | Mod

  datatype Kind = KRemoved | KNonexistent | KFile | KDir | KSymlink | KLocal

  function KindOf(e: Entry): Kind {
    match e
    case Dir(_, _) => KDir
    case Leaf(Removed) => KRemoved
    case Leaf(Nonexistent) => KNonexistent
    case Leaf(Local) => KLocal
    case Leaf(File(_, _, _)) => KFile
    case Leaf(Symlink(_, _, _)) => KSymlink
  }

  /** hashcode() of the kinds that have one. */
  function HashOf(e: Entry): nat {
    match e
    case Dir(d, _) => d.hash
    case Leaf(File(hash, _, _)) => hash
    case Leaf(Symlink(hash, _, _)) => hash
    case _ => 0
  }

  /** Two entries under one name are of one version. */
  predicate Alike(a: Entry, b: Entry) {
    KindOf(a) == KindOf(b) && HashOf(a) == HashOf(b)
  }

  function OpOf(a: Entry, b: Entry, n: Name): DiffOp
    requires a.Dir? && b.Dir?
  {
    if n in a.entries && n !in b.entries then Add
    else if n !in a.entries && n in b.entries then Rm
    else if n in a.entries && !Alike(a.entries[n], b.entries[n]) then Mod
    else Same
  }

  /** The calls tell of differences, of each name once at most. */
  ghost predicate Tells(a: Entry, b: Entry, ops: seq<(DiffOp, Name)>)
    requires a.Dir? && b.Dir?
  {
    && (forall i, j :: 0 <= i < j < |ops| ==> ops[i].1 != ops[j].1)
    && (forall k :: 0 <= k < |ops| ==> ops[k].0 == OpOf(a, b, ops[k].1) != Same)
  }

  ghost predicate Mentions(ops: seq<(DiffOp, Name)>, n: Name) {
    exists k :: 0 <= k < |ops| && ops[k].1 == n
  }

  /** The calls ogl_dir::diff makes of its handler: each differing name once. */
  ghost predicate IsDiff(a: Entry, b: Entry, ops: seq<(DiffOp, Name)>)
    requires a.Dir? && b.Dir?
  {
    Tells(a, b, ops) && forall n :: OpOf(a, b, n) != Same ==> Mentions(ops, n)
  }

  ghost predicate Selected(a: Entry, b: Entry, names: seq<Name>, op: DiffOp, ops: seq<(DiffOp, Name)>)
    requires a.Dir? && b.Dir?
  {
    && (forall i, j :: 0 <= i < j < |ops| ==> ops[i].1 != ops[j].1)
    && (forall k :: 0 <= k < |ops| ==> ops[k].0 == op == OpOf(a, b, ops[k].1) && ops[k].1 in names)
    && (forall n :: n in names && OpOf(a, b, n) == op ==> Mentions(ops, n))
  }

  /** The names, in some order, whose comparison gives `op`. */
  method Select(a: Entry, b: Entry, names: seq<Name>, op: DiffOp) returns (ops: seq<(DiffOp, Name)>)
    requires a.Dir? && b.Dir? && Distinct(names)
    ensures Selected(a, b, names, op, ops)
  {
    ops := [];
    for i := 0 to |names|
      invariant forall i, j :: 0 <= i < j < |ops| ==> ops[i].1 != ops[j].1
      invariant forall k :: 0 <= k < |ops| ==> ops[k].0 == op == OpOf(a, b, ops[k].1) && ops[k].1 in names[..i]
      invariant forall n :: n in names[..i] && OpOf(a, b, n) == op ==> exists k :: 0 <= k < |ops| && ops[k].1 == n
    {
      hide OpOf;
      ghost var ops0 := ops;
      assert names[i] !in names[..i];
      if OpOf(a, b, names[i]) == op {
        ops := ops + [(op, names[i])];
        assert ops[|ops0|].1 == names[i];
      }
      forall n | n in names[..i + 1] && OpOf(a, b, n) == op ensures exists k :: 0 <= k < |ops| && ops[k].1 == n {
        if n != names[i] {
          assert n in names[..i];
          var k :| 0 <= k < |ops0| && ops0[k].1 == n;
          assert ops[k].1 == n;
        }
      }
    }
  }

  /** ogl_dir::diff, the handler being called by whoever goes through the list:
      additions, removals, modifications. */
  method Diff(a: Entry, b: Entry) returns (ops: seq<(DiffOp, Name)>)
    requires a.Dir? && b.Dir?
    ensures IsDiff(a, b, ops)
  {
    var mine := Listing(a.entries.Keys);
    var theirs := Listing(b.entries.Keys);
    var adds := Select(a, b, mine, Add);
    var rms := Select(a, b, theirs, Rm);
    var mods := Select(a, b, mine, Mod);
    ops := adds + rms + mods;
    DiffComplete(a, b, mine, theirs, adds, rms, mods);
  }

  lemma OpNeedsName(a: Entry, b: Entry, n: Name)
    requires a.Dir? && b.Dir?
    ensures OpOf(a, b, n) == Add || OpOf(a, b, n) == Mod ==> n in a.entries
    ensures OpOf(a, b, n) == Rm ==> n in b.entries
  {
  }

  lemma TellsJoin(a: Entry, b: Entry, x: seq<(DiffOp, Name)>, y: seq<(DiffOp, Name)>)
    requires a.Dir? && b.Dir? && Tells(a, b, x) && Tells(a, b, y)
    requires forall i, j :: 0 <= i < |x| && 0 <= j < |y| ==> x[i].0 != y[j].0
    ensures Tells(a, b, x + y)
  {
    hide OpOf;
    var z := x + y;
    forall k | 0 <= k < |z| ensures z[k].0 == OpOf(a, b, z[k].1) != Same {
      assert z[k] == if k < |x| then x[k] else y[k - |x|];
    }
    forall i, j | 0 <= i < j < |z| ensures z[i].1 != z[j].1 {
      if j < |x| {
        assert z[i] == x[i] && z[j] == x[j];
      } else if i < |x| {
        assert z[i] == x[i] && z[j] == y[j - |x|];
      } else {
        assert z[i] == y[i - |x|] && z[j] == y[j - |x|];
      }
    }
  }

  lemma MentionsJoin(x: seq<(DiffOp, Name)>, y: seq<(DiffOp, Name)>, n: Name)
    requires Mentions(x, n) || Mentions(y, n)
    ensures Mentions(x + y, n)
  {
    if Mentions(x, n) {
      var k :| 0 <= k < |x| && x[k].1 == n;
      assert (x + y)[k] == x[k];
    } else {
      var k :| 0 <= k < |y| && y[k].1 == n;
      assert (x + y)[|x| + k] == y[k];
    }
  }

  lemma SelectedTells(a: Entry, b: Entry, names: seq<Name>, op: DiffOp, ops: seq<(DiffOp, Name)>)
    requires a.Dir? && b.Dir? && Selected(a, b, names, op, ops) && op != Same
    ensures Tells(a, b, ops) && forall k :: 0 <= k < |ops| ==> ops[k].0 == op
  {
    hide OpOf;
  }

  lemma DiffComplete(a: Entry, b: Entry, mine: seq<Name>, theirs: seq<Name>,
                     adds: seq<(DiffOp, Name)>, rms: seq<(DiffOp, Name)>, mods: seq<(DiffOp, Name)>)
    requires a.Dir? && b.Dir?
    requires (forall n :: n in mine <==> n in a.entries) && (forall n :: n in theirs <==> n in b.entries)
    requires Selected(a, b, mine, Add, adds) && Selected(a, b, theirs, Rm, rms) && Selected(a, b, mine, Mod, mods)
    ensures IsDiff(a, b, adds + rms + mods)
  {
    hide OpOf, Tells;
    SelectedTells(a, b, mine, Add, adds);
    SelectedTells(a, b, theirs, Rm, rms);
    SelectedTells(a, b, mine, Mod, mods);
    TellsJoin(a, b, adds, rms);
    TellsJoin(a, b, adds + rms, mods);
    forall n | OpOf(a, b, n) != Same ensures Mentions(adds + rms + mods, n) {
      OpNeedsName(a, b, n);
      if Mentions(adds, n) || Mentions(rms, n) {
        MentionsJoin(adds, rms, n);
      }
      MentionsJoin(adds + rms, mods, n);
    }
  }

  // ------------------------------------------------------------------
  // The merge as it should be.

  datatype Verdict = Fine | Descend | Clash | Abort

  /** What check_conflictions decides about one name: a name added by src must
      be new to dst, one removed or changed must be in dst as it was in common,
      except that a directory changed by src may have changed in dst too. */
  function CheckOne(s: Entry, c: Entry, d: Entry, n: Name): Verdict
    requires s.Dir? && c.Dir? && d.Dir?
  {
    match OpOf(s, c, n)
    case Same => Fine
    case Add => if n in d.entries then Clash else Fine
    case Rm =>
      if n !in d.entries || KindOf(c.entries[n]) != KindOf(d.entries[n]) then Clash
      else if KindOf(d.entries[n]) == KRemoved then Abort
      else if HashOf(d.entries[n]) != HashOf(c.entries[n]) then Clash
      else Fine
    case Mod =>
      if n !in d.entries || KindOf(c.entries[n]) != KindOf(d.entries[n]) then Clash
      else if KindOf(d.entries[n]) == KRemoved then Abort
      else if d.entries[n].Dir? then (if s.entries[n].Dir? then Descend else Fine)
      else if HashOf(d.entries[n]) != HashOf(c.entries[n]) then Clash
      else Fine
  }

  predicate Passes(v: Verdict) {
    v == Fine || v == Descend
  }

  /** No name of the three directories, at any depth src's changes lead to, is
      in conflict. */
  ghost predicate Compatible(s: Entry, c: Entry, d: Entry)
    requires s.Dir? && c.Dir? && d.Dir?
    decreases s
  {
    forall n :: (n in s.entries || n in c.entries) ==>
      && Passes(CheckOne(s, c, d, n))
      && (n in s.entries && CheckOne(s, c, d, n) == Descend ==> Compatible(s.entries[n], c.entries[n], d.entries[n]))
  }

  predicate TakesSrc(s: Entry, c: Entry, n: Name)
    requires s.Dir? && c.Dir?
  {
    OpOf(s, c, n) == Add || OpOf(s, c, n) == Mod
  }

  /** The merged directory: a name src added or changed is as in src, one that
      src removed is gone, any other is as in dst; and a directory changed in
      src that is one on all sides is merged inside. */
  ghost function Merged(s: Entry, c: Entry, d: Content): Content
    requires s.Dir? && c.Dir? && d.Dir?
    decreases s
  {
    Dir(NoInfo,
        map n | n in s.entries.Keys + d.entries.Keys && (TakesSrc(s, c, n) || (n in d.entries && OpOf(s, c, n) == Same)) ::
          if TakesSrc(s, c, n) then
            if n in c.entries && s.entries[n].Dir? && c.entries[n].Dir? && n in d.entries && d.entries[n].Dir?
            then Merged(s.entries[n], c.entries[n], d.entries[n])
            else ContentOf(s.entries[n])
          else d.entries[n])
  }

  // ------------------------------------------------------------------
  // The check pass.

  /** Three repositories over one root path. */
  ghost predicate Comparable(src: Repo, dst: Repo, common: Repo)
    reads src, dst, common
  {
    && src != dst && common != dst
    && ProperRoot(src.rootPath) && dst.rootPath == src.rootPath && common.rootPath == src.rootPath
    && src.root.Dir? && dst.root.Dir? && common.root.Dir?
    && Tidy(src.root) && Tidy(common.root)
  }

  /** As far as they have been loaded: the merge loads nothing itself. */
  ghost predicate Mergeable(src: Repo, dst: Repo, common: Repo)
    reads src, dst, common
  {
    Comparable(src, dst, common) && Tidy(dst.root)
  }

  /** find_dir of a spelled path. */
  method DirAt(repo: Repo, path: bytes, ghost p: Path) returns (at: Path)
    requires ProperRoot(repo.rootPath) && path == Spell(repo.rootPath, p)
    requires HasDir(repo.root, p) && OpenTo(repo.root, p)
    modifies repo`root
    ensures repo.root == old(repo.root) && at == p
  {
    StepsOfSpelling(repo, p);
    FindOpen(repo.store, repo.root, [], p);
    assert [] + p == p;
    var r := repo.Find(path);
    at := r.at;
  }

  /** The comparison of one directory with the handler check_conflictions. */
  method CheckDir(src: Repo, dst: Repo, common: Repo, dirname: bytes, ghost p: Path) returns (v: Verdict, names: seq<Name>)
    requires Mergeable(src, dst, common) && dirname == Spell(src.rootPath, p)
    requires HasDir(src.root, p) && HasDir(common.root, p) && HasDir(dst.root, p)
    modifies src`root, dst`root, common`root
    ensures src.root == old(src.root) && dst.root == old(dst.root) && common.root == old(common.root)
    ensures var s, c, d := At(src.root, p), At(common.root, p), At(dst.root, p);
      if v == Fine then
        && Distinct(names)
        && (forall n :: n in names <==> CheckOne(s, c, d, n) == Descend)
        && (forall n :: Passes(CheckOne(s, c, d, n)))
      else (v == Clash || v == Abort) && exists n :: CheckOne(s, c, d, n) == v
  {
    hide CheckOne, Tidy, OpenTo, Spell, Has, At, OpOf;
    TidyOpens(src.root, p);
    TidyOpens(common.root, p);
    TidyOpens(dst.root, p);
    var at := DirAt(src, dirname, p);
    var cat := DirAt(common, dirname, p);
    var s, c := At(src.root, at), At(common.root, cat);
    var ops := Diff(s, c);
    names := [];
    for k := 0 to |ops|
      invariant src.root == old(src.root) && dst.root == old(dst.root) && common.root == old(common.root)
      invariant Distinct(names)
      invariant forall n :: n in names <==> CheckOne(s, c, At(dst.root, p), n) == Descend && exists j :: 0 <= j < k && ops[j].1 == n
      invariant forall j :: 0 <= j < k ==> Passes(CheckOne(s, c, At(dst.root, p), ops[j].1))
    {
      var dstAt := DirAt(dst, dirname, p);
      var n := ops[k].1;
      v := CheckOne(s, c, At(dst.root, dstAt), n);
      if v == Clash || v == Abort {
        assert CheckOne(At(src.root, p), At(common.root, p), At(dst.root, p), n) == v;
        assert exists m :: CheckOne(At(src.root, p), At(common.root, p), At(dst.root, p), m) == v;
        return;
      }
      if v == Descend {
        names := names + [n];
      }
    }
    v := Fine;
    forall n ensures Passes(CheckOne(s, c, At(dst.root, p), n)) {
      SameIsFine(s, c, At(dst.root, p), n);
      if OpOf(s, c, n) != Same {
        var k :| 0 <= k < |ops| && ops[k].1 == n;
      }
    }
    forall n ensures n in names <==> CheckOne(s, c, At(dst.root, p), n) == Descend {
      SameIsFine(s, c, At(dst.root, p), n);
    }
  }

  lemma SameIsFine(s: Entry, c: Entry, d: Entry, n: Name)
    requires s.Dir? && c.Dir? && d.Dir?
    ensures OpOf(s, c, n) == Same ==> CheckOne(s, c, d, n) == Fine
  {
  }

  ghost predicate ThreeDirs(s: Entry, c: Entry, d: Entry, p: Path) {
    HasDir(s, p) && HasDir(c, p) && HasDir(d, p)
  }

  ghost predicate CompatibleAt(s: Entry, c: Entry, d: Entry, p: Path)
    requires ThreeDirs(s, c, d, p)
  {
    Compatible(At(s, p), At(c, p), At(d, p))
  }

  lemma OnlyDifferencesMatter(s: Entry, c: Entry, d: Entry, n: Name)
    requires s.Dir? && c.Dir? && d.Dir?
    ensures CheckOne(s, c, d, n) != Fine ==> n in s.entries || n in c.entries
    ensures CheckOne(s, c, d, n) == Descend ==>
              n in s.entries && s.entries[n].Dir? && n in c.entries && c.entries[n].Dir? && n in d.entries && d.entries[n].Dir?
  {
  }

  /** The child directories the check would go on to under a name. */
  ghost predicate ChildCompatible(s: Entry, c: Entry, d: Entry, n: Name)
    requires s.Dir? && c.Dir? && d.Dir? && CheckOne(s, c, d, n) == Descend
  {
    OnlyDifferencesMatter(s, c, d, n);
    Compatible(s.entries[n], c.entries[n], d.entries[n])
  }

  /** A failing name spoils its directory. */
  lemma FailureSpoils(s: Entry, c: Entry, d: Entry, n: Name)
    requires s.Dir? && c.Dir? && d.Dir? && !Passes(CheckOne(s, c, d, n))
    ensures !Compatible(s, c, d)
  {
    hide CheckOne;
    OnlyDifferencesMatter(s, c, d, n);
  }

  /** With no failing name, what is below decides. */
  lemma BelowDecides(s: Entry, c: Entry, d: Entry)
    requires s.Dir? && c.Dir? && d.Dir?
    requires forall n :: Passes(CheckOne(s, c, d, n))
    ensures Compatible(s, c, d) <==> forall n :: CheckOne(s, c, d, n) == Descend ==> ChildCompatible(s, c, d, n)
  {
    hide CheckOne;
    forall n ensures CheckOne(s, c, d, n) == Descend ==> n in s.entries && n in c.entries && n in d.entries {
      OnlyDifferencesMatter(s, c, d, n);
    }
  }

  lemma ChildDirs(s: Entry, c: Entry, d: Entry, p: Path, n: Name)
    requires ThreeDirs(s, c, d, p) && CheckOne(At(s, p), At(c, p), At(d, p), n) == Descend
    ensures ThreeDirs(s, c, d, p + [n])
    ensures CompatibleAt(s, c, d, p + [n]) == ChildCompatible(At(s, p), At(c, p), At(d, p), n)
  {
    hide CheckOne, Compatible, Has, At;
    OnlyDifferencesMatter(At(s, p), At(c, p), At(d, p), n);
    HasChild(s, p, n);
    HasChild(c, p, n);
    HasChild(d, p, n);
  }

  ghost predicate AllDirs(s: Entry, c: Entry, d: Entry, paths: seq<Path>) {
    forall i :: 0 <= i < |paths| ==> ThreeDirs(s, c, d, paths[i])
  }

  ghost predicate AllCompatible(s: Entry, c: Entry, d: Entry, paths: seq<Path>)
    requires AllDirs(s, c, d, paths)
  {
    forall i :: 0 <= i < |paths| ==> CompatibleAt(s, c, d, paths[i])
  }

  lemma AllJoin(s: Entry, c: Entry, d: Entry, a: seq<Path>, b: seq<Path>)
    ensures AllDirs(s, c, d, a + b) <==> AllDirs(s, c, d, a) && AllDirs(s, c, d, b)
    ensures AllDirs(s, c, d, a + b) ==>
              (AllCompatible(s, c, d, a + b) <==> AllCompatible(s, c, d, a) && AllCompatible(s, c, d, b))
  {
    hide ThreeDirs, CompatibleAt;
    assert forall i :: 0 <= i < |a| ==> (a + b)[i] == a[i];
    assert forall i :: 0 <= i < |b| ==> (a + b)[|a| + i] == b[i];
  }

  /** The directories below stand for the one above. */
  lemma BelowStands(s: Entry, c: Entry, d: Entry, p: Path, names: seq<Name>)
    requires ThreeDirs(s, c, d, p)
    requires forall n :: n in names <==> CheckOne(At(s, p), At(c, p), At(d, p), n) == Descend
    requires forall n :: Passes(CheckOne(At(s, p), At(c, p), At(d, p), n))
    ensures AllDirs(s, c, d, Below(p, names))
    ensures AllCompatible(s, c, d, Below(p, names)) <==> CompatibleAt(s, c, d, p)
  {
    hide CheckOne, Compatible, Has, At, ChildCompatible;
    var work := Below(p, names);
    BelowDecides(At(s, p), At(c, p), At(d, p));
    forall k | 0 <= k < |names|
      ensures ThreeDirs(s, c, d, work[k])
      ensures names[k] in names && CompatibleAt(s, c, d, work[k]) == ChildCompatible(At(s, p), At(c, p), At(d, p), names[k])
    {
      ChildDirs(s, c, d, p, names[k]);
    }
    if AllCompatible(s, c, d, work) {
      forall n | CheckOne(At(s, p), At(c, p), At(d, p), n) == Descend ensures ChildCompatible(At(s, p), At(c, p), At(d, p), n) {
        var k :| 0 <= k < |names| && names[k] == n;
        assert CompatibleAt(s, c, d, work[k]);
      }
    }
  }

  lemma OnePath(s: Entry, c: Entry, d: Entry, p: Path)
    requires ThreeDirs(s, c, d, p)
    ensures AllDirs(s, c, d, [p]) && AllCompatible(s, c, d, [p]) == CompatibleAt(s, c, d, p)
  {
    assert [p][0] == p;
  }

  lemma TopDirs(s: Entry, c: Entry, d: Entry, stack: seq<Path>, p: Path)
    requires AllDirs(s, c, d, stack + [p])
    ensures HasDir(s, p) && HasDir(c, p) && HasDir(d, p)
  {
    assert (stack + [p])[|stack|] == p;
  }

  lemma TopSpoils(s: Entry, c: Entry, d: Entry, stack: seq<Path>, p: Path, v: Verdict)
    requires AllDirs(s, c, d, stack + [p]) && ThreeDirs(s, c, d, p)
    requires v != Fine && v != Descend && exists n :: CheckOne(At(s, p), At(c, p), At(d, p), n) == v
    ensures !AllCompatible(s, c, d, stack + [p])
  {
    hide CheckOne, Compatible, Has, At;
    var n :| CheckOne(At(s, p), At(c, p), At(d, p), n) == v;
    FailureSpoils(At(s, p), At(c, p), At(d, p), n);
    assert (stack + [p])[|stack|] == p;
    assert !CompatibleAt(s, c, d, (stack + [p])[|stack|]);
  }

  lemma CheckStep(s: Entry, c: Entry, d: Entry, stack: seq<Path>, done: set<Path>, p: Path, names: seq<Name>)
    requires Apart(stack + [p]) && Ahead(stack + [p], done) && Distinct(names)
    requires AllDirs(s, c, d, stack + [p]) && ThreeDirs(s, c, d, p)
    requires forall n :: n in names <==> CheckOne(At(s, p), At(c, p), At(d, p), n) == Descend
    requires forall n :: Passes(CheckOne(At(s, p), At(c, p), At(d, p), n))
    ensures var work := stack + Below(p, names);
      && p !in done && Apart(work) && Ahead(work, done + {p})
      && AllDirs(s, c, d, work)
      && (AllCompatible(s, c, d, work) <==> AllCompatible(s, c, d, stack + [p]))
  {
    hide CheckOne, Compatible, Apart, Ahead, Has, At, AllDirs, AllCompatible, CompatibleAt;
    StackStep(stack, done, p, names);
    AllJoin(s, c, d, stack, [p]);
    OnePath(s, c, d, p);
    BelowStands(s, c, d, p, names);
    AllJoin(s, c, d, stack, Below(p, names));
  }

  lemma NothingLeft(s: Entry, c: Entry, d: Entry)
    ensures AllCompatible(s, c, d, [])
  {
  }

  lemma StartStack(s: Entry, c: Entry, d: Entry)
    requires s.Dir? && c.Dir? && d.Dir?
    ensures Apart([[]]) && Ahead([[]], {}) && AllDirs(s, c, d, [[]])
    ensures AllCompatible(s, c, d, [[]]) == Compatible(s, c, d)
  {
    assert CompatibleAt(s, c, d, []) == Compatible(s, c, d);
    OnePath(s, c, d, []);
  }

  /** get_path of the children to visit. */
  function Spellings(root: bytes, dirname: bytes, ghost p: Path, names: seq<Name>): (r: seq<bytes>)
    requires dirname == Spell(root, p)
    ensures |r| == |names| && forall k :: 0 <= k < |r| ==> r[k] == Spell(root, Below(p, names)[k])
  {
    assert forall k :: 0 <= k < |names| ==> (p + [names[k]])[..|p|] == p;
    seq(|names|, k requires 0 <= k < |names| => dirname + [SLASH] + names[k])
  }

  /** The strings in the queue are those of the paths to visit. */
  ghost predicate Spelled(root: bytes, queue: seq<bytes>, paths: seq<Path>) {
    |queue| == |paths| && forall i :: 0 <= i < |queue| ==> queue[i] == Spell(root, paths[i])
  }

  lemma SpelledTop(root: bytes, queue: seq<bytes>, stack: seq<Path>, p: Path)
    requires Spelled(root, queue, stack + [p])
    ensures queue != [] && queue[|queue| - 1] == Spell(root, p) && Spelled(root, queue[..|queue| - 1], stack)
  {
    assert (stack + [p])[|stack|] == p;
    assert forall i :: 0 <= i < |stack| ==> (stack + [p])[i] == stack[i];
  }

  lemma SpelledJoin(root: bytes, a: seq<bytes>, b: seq<bytes>, p: seq<Path>, q: seq<Path>)
    requires Spelled(root, a, p) && Spelled(root, b, q)
    ensures Spelled(root, a + b, p + q)
  {
    hide Spell;
    var ab, pq := a + b, p + q;
    forall i | 0 <= i < |ab| ensures ab[i] == Spell(root, pq[i]) {
      if i < |a| {
        assert ab[i] == a[i] && pq[i] == p[i];
      } else {
        assert ab[i] == b[i - |a|] && pq[i] == q[i - |a|];
      }
    }
  }

  lemma SpelledChildren(root: bytes, p: Path, names: seq<Name>)
    ensures Spelled(root, Spellings(root, Spell(root, p), p, names), Below(p, names))
  {
    hide Spell, Spellings, Below;
  }

  lemma SpelledMore(root: bytes, queue: seq<bytes>, stack: seq<Path>, p: Path, names: seq<Name>)
    requires Spelled(root, queue, stack)
    ensures Spelled(root, queue + Spellings(root, Spell(root, p), p, names), stack + Below(p, names))
  {
    hide Spell, Spellings, Below, Spelled;
    SpelledChildren(root, p, names);
    SpelledJoin(root, queue, Spellings(root, Spell(root, p), p, names), stack, Below(p, names));
  }

  lemma SpelledRoot(root: bytes)
    requires ProperRoot(root)
    ensures Spelled(root, [root], [[]])
  {
  }

  /** The first loop of merge: it goes through exactly when there is no conflict. */
  method CheckPass(src: Repo, dst: Repo, common: Repo) returns (v: Verdict)
    requires Mergeable(src, dst, common)
    modifies src`root, dst`root, common`root
    ensures src.root == old(src.root) && dst.root == old(dst.root) && common.root == old(common.root)
    ensures v == Fine || v == Clash || v == Abort
    ensures v == Fine <==> Compatible(src.root, common.root, dst.root)
  {
    hide Compatible, CheckOne, Tidy, Apart, Ahead, HasDir, Has, At, AllDirs, AllCompatible, Below, Spelled, Spell;
    var queue: seq<bytes> := [src.rootPath];
    ghost var paths: seq<Path>, done: set<Path> := [[]], {};
    ghost var s, c, d := src.root, common.root, dst.root;
    SpelledRoot(src.rootPath);
    StartStack(s, c, d);
    while queue != []
      invariant src.root == s && common.root == c && dst.root == d
      invariant Spelled(src.rootPath, queue, paths) && |queue| == |paths|
      invariant Apart(paths) && Ahead(paths, done) && done <= DirPaths(s)
      invariant AllDirs(s, c, d, paths)
      invariant Compatible(s, c, d) <==> AllCompatible(s, c, d, paths)
      decreases DirPaths(s) - done
    {
      ghost var p, stack := paths[|paths| - 1], paths[..|paths| - 1];
      assert paths == stack + [p];
      SpelledTop(src.rootPath, queue, stack, p);
      var dirname := queue[|queue| - 1];
      queue := queue[..|queue| - 1];
      TopDirs(s, c, d, stack, p);
      var names;
      v, names := CheckDir(src, dst, common, dirname, p);
      if v != Fine {
        TopSpoils(s, c, d, stack, p, v);
        return;
      }
      CheckStep(s, c, d, stack, done, p, names);
      SpelledMore(src.rootPath, queue, stack, p, names);
      queue := queue + Spellings(src.rootPath, dirname, p, names);
      paths := stack + Below(p, names);
      DirPathsAre(s, p);
      done := done + {p};
    }
    NothingLeft(s, c, d);
    v := Fine;
  }

  // ------------------------------------------------------------------
  // The apply pass.

  /** What the checks leave for the second pass: an added name is not in dst, a
      removed or modified one is, and where both have directories so has common,
      and so on below. */
  ghost predicate Applicable(s: Entry, c: Entry, d: Content)
    requires s.Dir? && c.Dir? && d.Dir?
    decreases s
  {
    && (forall n :: OpOf(s, c, n) == Add ==> n !in d.entries)
    && (forall n :: OpOf(s, c, n) == Rm ==> n in d.entries)
    && (forall n :: n in s.entries && OpOf(s, c, n) == Mod ==>
          && n in d.entries
          && (s.entries[n].Dir? && d.entries[n].Dir? ==>
                c.entries[n].Dir? && Applicable(s.entries[n], c.entries[n], d.entries[n])))
  }

  lemma {:induction false} CompatibleApplies(s: Entry, c: Entry, d: Entry)
    requires s.Dir? && c.Dir? && d.Dir? && Compatible(s, c, d)
    ensures Applicable(s, c, ContentOf(d))
  {
    forall n | n in s.entries && OpOf(s, c, n) == Mod
      ensures n in d.entries
      ensures s.entries[n].Dir? && d.entries[n].Dir? ==>
                c.entries[n].Dir? && Applicable(s.entries[n], c.entries[n], ContentOf(d.entries[n]))
    {
      assert Passes(CheckOne(s, c, d, n));
      if s.entries[n].Dir? && d.entries[n].Dir? {
        CompatibleApplies(s.entries[n], c.entries[n], d.entries[n]);
      }
    }
    forall n | OpOf(s, c, n) == Add || OpOf(s, c, n) == Rm ensures n in d.entries <==> OpOf(s, c, n) == Rm {
      assert Passes(CheckOne(s, c, d, n));
    }
  }

  predicate GoesInside(s: Entry, c: Entry, d: Content, n: Name)
    requires s.Dir? && c.Dir? && d.Dir?
  {
    OpOf(s, c, n) == Mod && s.entries[n].Dir? && n in d.entries && d.entries[n].Dir?
  }

  /** One directory with src's changes applied, except inside the directories
      that the worklist will go on to. */
  ghost function AppliedHere(s: Entry, c: Entry, d: Content): Content
    requires s.Dir? && c.Dir? && d.Dir?
  {
    Dir(NoInfo,
        map n | n in s.entries.Keys + d.entries.Keys && (TakesSrc(s, c, n) || (n in d.entries && OpOf(s, c, n) == Same)) ::
          if TakesSrc(s, c, n) && !GoesInside(s, c, d, n) then ContentOf(s.entries[n]) else d.entries[n])
  }

  lemma MergedFinishes(s: Entry, c: Entry, d: Content)
    requires s.Dir? && c.Dir? && d.Dir? && Applicable(s, c, d)
    ensures Merged(s, c, d).entries.Keys == AppliedHere(s, c, d).entries.Keys
    ensures forall n :: GoesInside(s, c, d, n) ==>
              n in s.entries && n in c.entries && c.entries[n].Dir? && n in Merged(s, c, d).entries
              && Merged(s, c, d).entries[n] == Merged(s.entries[n], c.entries[n], d.entries[n])
              && AppliedHere(s, c, d).entries[n] == d.entries[n]
              && Applicable(s.entries[n], c.entries[n], d.entries[n])
    ensures forall n :: n in AppliedHere(s, c, d).entries && !GoesInside(s, c, d, n) ==>
              Merged(s, c, d).entries[n] == AppliedHere(s, c, d).entries[n]
  {
    forall n | n in s.entries && OpOf(s, c, n) == Mod ensures n in c.entries && n in d.entries {
    }
  }

  /** The directory part-way through the handler calls: the names dealt with
      are as they will be, the others as they were. */
  ghost predicate PartlyApplied(x: Content, s: Entry, c: Entry, d: Content, done: set<Name>)
    requires s.Dir? && c.Dir? && d.Dir?
  {
    && x.Dir?
    && forall n ::
         var y := if n in done then AppliedHere(s, c, d) else d;
         (n in x.entries <==> n in y.entries) && (n in x.entries ==> x.entries[n] == y.entries[n])
  }

  lemma PartlyToFully(x: Content, s: Entry, c: Entry, d: Content, done: set<Name>)
    requires s.Dir? && c.Dir? && d.Dir? && PartlyApplied(x, s, c, d, done)
    requires forall n :: OpOf(s, c, n) != Same ==> n in done
    ensures x == AppliedHere(s, c, d)
  {
    var y := AppliedHere(s, c, d);
    forall n ensures (n in x.entries <==> n in y.entries) && (n in x.entries ==> x.entries[n] == y.entries[n]) {
    }
    assert x.entries == y.entries;
    assert x.info == NoInfo;
  }

  /** The tree with other entries in the directory at `at`, which is marked. */
  function WithEntries(root: Entry, at: Path, entries: map<Name, Entry>): Entry
    requires HasDir(root, at)
  {
    var d := Dir(At(root, at).info, entries);
    AtPut(root, at, d);
    Touch(PutAt(root, at, d), at)
  }

  lemma WithEntriesStep(root: Entry, at: Path, entries: map<Name, Entry>)
    requires HasDir(root, at) && at != []
    ensures WithEntries(root, at, entries) ==
            Dir(root.info.(modified := true), root.entries[at[0] := WithEntries(root.entries[at[0]], at[1..], entries)])
  {
    var d := Dir(At(root, at).info, entries);
    AtPut(root, at, d);
    AtPut(root.entries[at[0]], at[1..], d);
  }

  lemma WithEntriesKeeps(root: Entry, at: Path, entries: map<Name, Entry>)
    requires root.Dir? && HasDir(root, at)
    ensures var r := WithEntries(root, at, entries);
      && r.Dir? && HasDir(r, at) && At(r, at).entries == entries
      && Has(ContentOf(root), at)
      && ContentOf(r) == PutAt(ContentOf(root), at, ContentOf(Dir(At(root, at).info, entries)))
  {
    var d := Dir(At(root, at).info, entries);
    ContentPut(root, at, d);
    AtPut(root, at, d);
    TouchKeeps(PutAt(root, at, d), at);
    TouchAt(PutAt(root, at, d), at, at);
  }

  lemma ShallowContent(d: Entry)
    requires d.Dir?
    ensures ContentOf(d).Dir? && ContentOf(d).entries.Keys == d.entries.Keys
    ensures forall n :: n in d.entries ==> ContentOf(d).entries[n] == ContentOf(d.entries[n])
  {
  }

  lemma ContentKind(e: Entry)
    ensures ContentOf(e).Dir? == e.Dir?
  {
  }

  /** Changing one name of a directory changes that name of its content. */
  lemma OneNameChanged(i: DirState, a: map<Name, Entry>, b: map<Name, Entry>, n: Name)
    requires forall m :: m != n ==> (m in a <==> m in b) && (m in a ==> a[m] == b[m])
    ensures var x, y := ContentOf(Dir(i, a)).entries, ContentOf(Dir(i, b)).entries;
      y == if n in b then x[n := ContentOf(b[n])] else x - {n}
  {
    hide ContentOf;
    ShallowContent(Dir(i, a));
    ShallowContent(Dir(i, b));
    var x, y := ContentOf(Dir(i, a)).entries, ContentOf(Dir(i, b)).entries;
  }

  /** clone, by worklist for a directory. */
  method CloneEntry(e: Entry, junk: nat) returns (c: Entry)
    ensures c == Clone(e, junk)
  {
    if e.Dir? {
      c := CloneDir(e, junk);
    } else {
      c := Leaf(CloneLeaf(e.leaf));
    }
  }

  /** What one handler call of apply_changes leaves of a directory's content. */
  function HandlerEffect(s: Entry, c: Entry, x: Content, op: DiffOp, n: Name): Content
    requires s.Dir? && c.Dir? && x.Dir? && op == OpOf(s, c, n)
  {
    if op == Same || GoesInside(s, c, x, n) then x
    else if op == Rm then Dir(NoInfo, x.entries - {n})
    else Dir(NoInfo, x.entries[n := ContentOf(s.entries[n])])
  }

  /** The names of a directory after one. */
  function NewNames(entries: map<Name, Entry>, s: Entry, op: DiffOp, n: Name, junk: nat): map<Name, Entry>
    requires s.Dir? && (op == Add || op == Mod ==> n in s.entries)
  {
    if op == Add || op == Mod then entries[n := Clone(s.entries[n], junk)] else entries - {n}
  }

  /** One handler call of apply_changes, at the directory `at` of dst.  The two
      markings that removing and adding make are one. */
  method ApplyOne(dst: Repo, at: Path, s: Entry, ghost c: Entry, op: DiffOp, n: Name, junk: nat) returns (descend: bool)
    requires s.Dir? && c.Dir? && op == OpOf(s, c, n) != Same
    requires dst.root.Dir? && HasDir(dst.root, at)
    requires op == Mod ==> n in At(dst.root, at).entries
    modifies dst`root
    ensures dst.root.Dir? && HasDir(dst.root, at)
    ensures ContentOf(At(old(dst.root), at)).Dir? && Has(ContentOf(old(dst.root)), at)
    ensures var x, x' := ContentOf(At(old(dst.root), at)), ContentOf(At(dst.root, at));
      && x' == HandlerEffect(s, c, x, op, n)
      && ContentOf(dst.root) == PutAt(ContentOf(old(dst.root)), at, x')
      && descend == GoesInside(s, c, x, n)
    ensures dst.root == if descend then old(dst.root)
                        else WithEntries(old(dst.root), at, NewNames(At(old(dst.root), at).entries, s, op, n, junk))
  {
    hide Has, At, PutAt, ContentOf, WithEntries, Clone;
    var d := At(dst.root, at);
    ContentAt(dst.root, at);
    ShallowContent(d);
    if n in d.entries { ContentKind(d.entries[n]); }
    if op == Mod && s.entries[n].Dir? && d.entries[n].Dir? {
      PutSame(ContentOf(dst.root), at);
      return true;
    }
    descend := false;
    var entries: map<Name, Entry> := d.entries;
    if op == Mod || op == Rm {
      var gone: set<Name> := {n};
      entries := entries - gone;
    }
    if op == Mod || op == Add {
      var x := CloneEntry(s.entries[n], junk);
      CloneKeeps(s.entries[n], junk);
      entries := entries[n := x];
    }
    OneNameChanged(d.info, d.entries, entries, n);
    ShallowContent(Dir(d.info, entries));
    WithEntriesKeeps(dst.root, at, entries);
    assert entries == NewNames(d.entries, s, op, n, junk);
    ghost var r := dst.root;
    dst.root := WithEntries(dst.root, at, entries);
    ContentAt(dst.root, at);
    AtPut(ContentOf(r), at, ContentOf(Dir(d.info, entries)));
    NoInfoContent(d);
    NoInfoContent(Dir(d.info, entries));
  }

  lemma NoInfoContent(d: Entry)
    requires d.Dir?
    ensures ContentOf(d) == Dir(NoInfo, ContentOf(d).entries)
  {
  }

  // ------------------------------------------------------------------
  // Flags and hashes.

  /** A directory of dst: marked if anything in or below it was touched, and
      otherwise the same.  One that is not loaded can only have got names. */
  predicate Kept(a: Entry, b: Entry) {
    && a.Dir? && b.Dir?
    && (if b.info.modified then b.info == a.info.(modified := true) else b == a)
    && (a.info.loaded || b == a || b.entries != map[])
  }

  /** One copied from src: its hash is unset, its flags are those in src. */
  predicate Copied(a: Entry, b: Entry, junk: nat) {
    a.Dir? && b.Dir? && b.info == a.info.(hash := junk)
  }

  /** Every directory of the tree is one that dst had, or else a copy of what
      src has at its place. */
  ghost predicate Marked(root0: Entry, src: Entry, root: Entry, junk: nat) {
    forall p :: HasDir(root, p) ==>
      if HasDir(root0, p) then Kept(At(root0, p), At(root, p)) else HasDir(src, p) && Copied(At(src, p), At(root, p), junk)
  }

  ghost predicate MarkedAt(root0: Entry, src: Entry, root: Entry, junk: nat, p: Path)
    requires HasDir(root, p)
  {
    if HasDir(root0, p) then Kept(At(root0, p), At(root, p)) else HasDir(src, p) && Copied(At(src, p), At(root, p), junk)
  }

  /** The directory and all above it are marked and are otherwise as before. */
  lemma {:induction false} WithEntriesAbove(root: Entry, at: Path, entries: map<Name, Entry>, p: Path)
    requires HasDir(root, at) && p <= at
    ensures HasDir(root, p) && HasDir(WithEntries(root, at, entries), p)
    ensures At(WithEntries(root, at, entries), p).info == At(root, p).info.(modified := true)
    ensures p == at ==> At(WithEntries(root, at, entries), p).entries == entries
    decreases |at|
  {
    hide WithEntries;
    if at == [] {
      WithEntriesHere(root, entries);
    } else {
      WithEntriesStep(root, at, entries);
      if p != [] {
        WithEntriesAbove(root.entries[at[0]], at[1..], entries, p[1..]);
        assert p[1..] == at[1..] ==> p == [p[0]] + p[1..] == [at[0]] + at[1..] == at;
      }
    }
  }

  lemma WithEntriesHere(root: Entry, entries: map<Name, Entry>)
    requires root.Dir?
    ensures WithEntries(root, [], entries) == Dir(root.info.(modified := true), entries)
  {
  }

  /** What is neither above nor below is untouched. */
  lemma WithEntriesElsewhere(root: Entry, at: Path, entries: map<Name, Entry>, p: Path)
    requires HasDir(root, at) && !(p <= at) && !(at <= p)
    ensures Has(WithEntries(root, at, entries), p) <==> Has(root, p)
    ensures Has(root, p) ==> At(WithEntries(root, at, entries), p) == At(root, p)
  {
    hide Has, At, PutAt, Touch;
    var d := Dir(At(root, at).info, entries);
    AtPut(root, at, d);
    AtPutElsewhere(root, at, d, p);
    TouchAt(PutAt(root, at, d), at, p);
  }

  /** What is below is what the new entries have. */
  lemma WithEntriesBelow(root: Entry, at: Path, entries: map<Name, Entry>, n: Name, q: Path)
    requires HasDir(root, at)
    ensures var r := WithEntries(root, at, entries);
      && (Has(r, at + [n] + q) <==> n in entries && Has(entries[n], q))
      && (Has(r, at + [n] + q) ==> At(r, at + [n] + q) == At(entries[n], q))
  {
    hide Has, At, WithEntries;
    var r := WithEntries(root, at, entries);
    WithEntriesAbove(root, at, entries, at);
    HasChild(r, at, n);
    HasJoin(r, at + [n], q);
  }

  lemma {:induction false} CloneAtPath(e: Entry, junk: nat, p: Path)
    ensures Has(Clone(e, junk), p) <==> Has(e, p)
    ensures Has(e, p) ==> At(Clone(e, junk), p) == Clone(At(e, p), junk)
  {
    if p != [] && e.Dir? && p[0] in e.entries {
      CloneAtPath(e.entries[p[0]], junk, p[1..]);
    }
  }

  /** Below the name put in is a copy; below the others nothing changes. */
  lemma MarkedBelow(root0: Entry, src: Entry, root: Entry, junk: nat, at: Path, entries: map<Name, Entry>, m: Name, n: Name, q: Path)
    requires HasDir(root, at) && HasDir(src, at)
    requires Marked(root0, src, root, junk)
    requires m != n ==> (m in entries <==> m in At(root, at).entries) && (m in entries ==> entries[m] == At(root, at).entries[m])
    requires n in entries ==> n in At(src, at).entries && entries[n] == Clone(At(src, at).entries[n], junk)
    requires n in entries && entries[n].Dir? ==> !HasDir(root0, at + [n])
    requires HasDir(WithEntries(root, at, entries), at + [m] + q)
    ensures MarkedAt(root0, src, WithEntries(root, at, entries), junk, at + [m] + q)
  {
    hide Has, At, WithEntries, Clone;
    var p := at + [m] + q;
    WithEntriesBelow(root, at, entries, m, q);
    HasChild(root, at, m);
    HasJoin(root, at + [m], q);
    if m == n {
      var s := At(src, at).entries[n];
      CloneAtPath(s, junk, q);
      CloneIsCopy(At(s, q), junk);
      HasChild(src, at, n);
      HasJoin(src, at + [n], q);
      LeafEnds(entries[n], q);
      if HasDir(root0, p) {
        DirOnTheWay(root0, at + [n], p);
      }
    } else {
      assert HasDir(root, p);
    }
  }

  lemma {:induction false} OpenAbove(e: Entry, at: Path, p: Path)
    requires HasDir(e, at) && OpenTo(e, at) && p < at
    ensures HasDir(e, p) && At(e, p).info.loaded
  {
    if p != [] {
      OpenAbove(e.entries[p[0]], at[1..], p[1..]);
    }
  }

  lemma CloneIsCopy(e: Entry, junk: nat)
    ensures Clone(e, junk).Dir? ==> Copied(e, Clone(e, junk), junk)
  {
  }

  lemma MarkedStep(root0: Entry, src: Entry, root: Entry, junk: nat, at: Path, entries: map<Name, Entry>, n: Name)
    requires HasDir(root, at) && HasDir(src, at) && HasDir(root0, at) && OpenTo(root0, at)
    requires At(root0, at).info.loaded || entries != map[]
    requires Marked(root0, src, root, junk)
    requires forall m :: m != n ==>
               (m in entries <==> m in At(root, at).entries) && (m in entries ==> entries[m] == At(root, at).entries[m])
    requires n in entries ==> n in At(src, at).entries && entries[n] == Clone(At(src, at).entries[n], junk)
    requires n in entries && entries[n].Dir? ==> !HasDir(root0, at + [n])
    ensures Marked(root0, src, WithEntries(root, at, entries), junk)
  {
    hide Has, At, WithEntries, Clone;
    var r := WithEntries(root, at, entries);
    forall p | HasDir(r, p) ensures MarkedAt(root0, src, r, junk, p) {
      if p <= at {
        WithEntriesAbove(root, at, entries, p);
        DirOnTheWay(root0, p, at);
        if p != at { OpenAbove(root0, at, p); }
        assert MarkedAt(root0, src, root, junk, p);
      } else if at <= p {
        assert p == at + [p[|at|]] + p[|at| + 1..];
        MarkedBelow(root0, src, root, junk, at, entries, p[|at|], n, p[|at| + 1..]);
      } else {
        WithEntriesElsewhere(root, at, entries, p);
      }
    }
  }

  // ------------------------------------------------------------------
  // What a directory's handler calls leave alone.

  /** Nothing changes that is neither above nor below p, and the ways that do
      not lead below p stay open. */
  ghost predicate SparesOthers(root0: Entry, root: Entry, p: Path) {
    && (forall q :: !(p <= q) && !(q <= p) ==>
          (Has(root, q) <==> Has(root0, q)) && (Has(root0, q) ==> At(root, q) == At(root0, q)))
    && (forall q :: !(p < q) && OpenTo(root0, q) ==> OpenTo(root, q))
  }

  lemma {:induction false} WithEntriesOpen(root: Entry, at: Path, entries: map<Name, Entry>, q: Path)
    requires HasDir(root, at) && OpenTo(root, q) && !(at < q)
    ensures OpenTo(WithEntries(root, at, entries), q)
    decreases |at|
  {
    hide WithEntries;
    if at != [] && q != [] {
      WithEntriesStep(root, at, entries);
      if q[0] == at[0] {
        assert at[1..] < q[1..] ==> at < q;
        WithEntriesOpen(root.entries[at[0]], at[1..], entries, q[1..]);
      }
    }
  }

  predicate SameName(a: map<Name, Entry>, b: map<Name, Entry>, n: Name) {
    (n in a <==> n in b) && (n in a ==> a[n] == b[n])
  }

  /** Part-way through the calls for the directory at p, from r0 on. */
  ghost predicate Progress(root0: Entry, src: Entry, r0: Entry, r: Entry, p: Path, c: Entry, done: set<Name>, junk: nat) {
    && HasDir(root0, p) && HasDir(src, p) && HasDir(r0, p) && HasDir(r, p) && c.Dir? && At(r0, p) == At(root0, p)
    && OpenTo(r, p) && At(r, p).info.loaded == At(r0, p).info.loaded
    && Marked(root0, src, r, junk) && SparesOthers(r0, r, p)
    && forall n :: n !in done || GoesInside(At(src, p), c, ContentOf(At(r0, p)), n) ==>
         SameName(At(r0, p).entries, At(r, p).entries, n)
  }

  lemma ProgressStarts(root0: Entry, src: Entry, r: Entry, p: Path, c: Entry, junk: nat)
    requires Unvisited(root0, src, r, p) && c.Dir?
    requires Marked(root0, src, r, junk)
    ensures Progress(root0, src, r, r, p, c, {}, junk)
  {
    hide Has, At;
  }

  /** One more call, which either puts the directory off or changes one name. */
  lemma ProgressStep(root0: Entry, src: Entry, r0: Entry, r: Entry, p: Path, c: Entry, done: set<Name>, junk: nat,
                     op: DiffOp, n: Name)
    requires Progress(root0, src, r0, r, p, c, done, junk) && n !in done && ContentOf(At(r0, p)).Dir? && Tidy(root0)
    requires op == OpOf(At(src, p), c, n) != Same && Applicable(At(src, p), c, ContentOf(At(r0, p)))
    ensures var s, d := At(src, p), ContentOf(At(r0, p));
      Progress(root0, src, r0,
               if GoesInside(s, c, d, n) then r else WithEntries(r, p, NewNames(At(r, p).entries, s, op, n, junk)),
               p, c, done + {n}, junk)
  {
    hide Has, At, WithEntries, ContentOf, Marked, SparesOthers, Clone, OpenTo;
    TidyOpens(root0, p);
    var s, d := At(src, p), ContentOf(At(r0, p));
    if !GoesInside(s, c, d, n) {
      var es := At(r, p).entries;
      var new' := NewNames(es, s, op, n, junk);
      WithEntriesAbove(r, p, new', p);
      NotADirBefore(root0, p, s, c, op, n, junk, new');
      LoadedOrAdded(At(root0, p), s, c, op, n, junk, new');
      MarkedStep(root0, src, r, junk, p, new', n);
      SparesStep(r0, r, p, new');
      WithEntriesOpen(r, p, new', p);
      forall m | m !in done + {n} || GoesInside(s, c, d, m)
        ensures SameName(At(r0, p).entries, At(WithEntries(r, p, new'), p).entries, m)
      {
        assert m != n;
        assert SameName(At(r0, p).entries, At(r, p).entries, m);
      }
    }
  }

  /** A directory put in takes the place of no directory of dst. */
  lemma NotADirBefore(root0: Entry, p: Path, s: Entry, c: Entry, op: DiffOp, n: Name, junk: nat, entries: map<Name, Entry>)
    requires HasDir(root0, p) && s.Dir? && c.Dir? && ContentOf(At(root0, p)).Dir?
    requires op == OpOf(s, c, n) != Same && Applicable(s, c, ContentOf(At(root0, p)))
    requires !GoesInside(s, c, ContentOf(At(root0, p)), n)
    requires n in entries <==> op == Add || op == Mod
    requires n in entries ==> entries[n] == Clone(s.entries[n], junk)
    ensures n in entries && entries[n].Dir? ==> !HasDir(root0, p + [n])
  {
    hide Has, At;
    HasChild(root0, p, n);
    ShallowContent(At(root0, p));
    if n in At(root0, p).entries { ContentKind(At(root0, p).entries[n]); }
  }

  /** In a directory not loaded there is nothing to remove. */
  lemma LoadedOrAdded(e: Entry, s: Entry, c: Entry, op: DiffOp, n: Name, junk: nat, entries: map<Name, Entry>)
    requires e.Dir? && Tidy(e) && s.Dir? && c.Dir? && ContentOf(e).Dir?
    requires op == OpOf(s, c, n) != Same && Applicable(s, c, ContentOf(e))
    requires n in entries <==> op == Add || op == Mod
    ensures e.info.loaded || entries != map[]
  {
    ShallowContent(e);
  }

  lemma SparesStep(r0: Entry, r: Entry, p: Path, entries: map<Name, Entry>)
    requires SparesOthers(r0, r, p) && HasDir(r, p)
    ensures SparesOthers(r0, WithEntries(r, p, entries), p)
  {
    hide Has, At, WithEntries, OpenTo;
    var r' := WithEntries(r, p, entries);
    forall q | !(p < q) && OpenTo(r0, q) ensures OpenTo(r', q) {
      WithEntriesOpen(r, p, entries, q);
    }
    forall q | !(p <= q) && !(q <= p)
      ensures (Has(r', q) <==> Has(r0, q)) && (Has(r0, q) ==> At(r', q) == At(r0, q))
    {
      WithEntriesElsewhere(r, p, entries, q);
    }
  }

  /** A directory to visit is in src, and in dst still as it was. */
  ghost predicate Unvisited(root0: Entry, src: Entry, root: Entry, p: Path) {
    HasDir(root0, p) && HasDir(src, p) && HasDir(root, p) && At(root, p) == At(root0, p) && OpenTo(root, p)
  }

  ghost predicate AllUnvisited(root0: Entry, src: Entry, root: Entry, paths: seq<Path>) {
    forall i :: 0 <= i < |paths| ==> Unvisited(root0, src, root, paths[i])
  }

  lemma UnvisitedStep(root0: Entry, src: Entry, r0: Entry, r: Entry, stack: seq<Path>, p: Path, c: Entry, names: seq<Name>,
                      done: set<Name>, junk: nat)
    requires Apart(stack + [p]) && AllUnvisited(root0, src, r0, stack + [p]) && Tidy(root0)
    requires Progress(root0, src, r0, r, p, c, done, junk) && ContentOf(At(r0, p)).Dir?
    requires forall n :: n in names ==> GoesInside(At(src, p), c, ContentOf(At(r0, p)), n)
    ensures AllUnvisited(root0, src, r, stack + Below(p, names))
  {
    hide Has, At, ContentOf, Marked, Apart, OpenTo, Tidy;
    var work := stack + Below(p, names);
    forall i | 0 <= i < |work| ensures Unvisited(root0, src, r, work[i]) {
      if i < |stack| {
        StackApart(stack, p, i);
        assert (stack + [p])[i] == stack[i] == work[i];
        assert Unvisited(root0, src, r0, stack[i]);
      } else {
        var n := names[i - |stack|];
        assert work[i] == p + [n] && n in names;
        ChildUnvisited(root0, src, r0, r, p, c, n, done, junk);
      }
    }
  }

  lemma ChildUnvisited(root0: Entry, src: Entry, r0: Entry, r: Entry, p: Path, c: Entry, n: Name, done: set<Name>, junk: nat)
    requires Progress(root0, src, r0, r, p, c, done, junk) && ContentOf(At(r0, p)).Dir?
    requires GoesInside(At(src, p), c, ContentOf(At(r0, p)), n) && Tidy(root0)
    ensures Unvisited(root0, src, r, p + [n])
  {
    hide Has, At, ContentOf, Marked, SparesOthers, OpenTo;
    TidyOpens(root0, p);
    HasChild(root0, p, n);
    HasChild(src, p, n);
    HasChild(r, p, n);
    ShallowContent(At(r0, p));
    ContentKind(At(r0, p).entries[n]);
    assert SameName(At(r0, p).entries, At(r, p).entries, n);
    OpenChild(r, p, n);
  }

  lemma {:induction false} OpenChild(e: Entry, p: Path, n: Name)
    requires OpenTo(e, p) && HasDir(e, p) && At(e, p).info.loaded && n in At(e, p).entries
    ensures OpenTo(e, p + [n])
  {
    if p == [] {
      var one := [n];
      assert p + one == one && one[1..] == [];
    } else {
      assert (p + [n])[0] == p[0] && (p + [n])[1..] == p[1..] + [n];
      OpenChild(e.entries[p[0]], p[1..], n);
    }
  }

  lemma ProgressMarks(root0: Entry, src: Entry, r0: Entry, r: Entry, p: Path, c: Entry, done: set<Name>, junk: nat)
    requires Progress(root0, src, r0, r, p, c, done, junk)
    ensures Marked(root0, src, r, junk) && OpenTo(r, p) && HasDir(r, p)
  {
  }

  lemma TopUnvisited(root0: Entry, src: Entry, root: Entry, stack: seq<Path>, p: Path)
    requires AllUnvisited(root0, src, root, stack + [p])
    ensures Unvisited(root0, src, root, p)
  {
    assert (stack + [p])[|stack|] == p;
  }

  lemma MarksStart(root: Entry, src: Entry, junk: nat)
    requires root.Dir? && src.Dir?
    ensures Marked(root, src, root, junk) && AllUnvisited(root, src, root, [[]])
  {
  }

  /** The handler calls commute with the bookkeeping of names dealt with. */
  lemma OneMoreApplied(x: Content, s: Entry, c: Entry, d: Content, done: set<Name>, op: DiffOp, n: Name)
    requires s.Dir? && c.Dir? && d.Dir? && PartlyApplied(x, s, c, d, done) && n !in done
    requires op == OpOf(s, c, n)
    ensures PartlyApplied(HandlerEffect(s, c, x, op, n), s, c, d, done + {n})
    ensures GoesInside(s, c, x, n) == GoesInside(s, c, d, n)
  {
  }

  /** The comparison of one directory with the handler apply_changes. */
  method ApplyDir(src: Repo, dst: Repo, common: Repo, dirname: bytes, ghost p: Path, junk: nat, ghost root0: Entry)
    returns (names: seq<Name>, ghost done: set<Name>)
    requires Comparable(src, dst, common) && dirname == Spell(src.rootPath, p)
    requires HasDir(src.root, p) && HasDir(common.root, p) && HasDir(dst.root, p)
    requires Applicable(At(src.root, p), At(common.root, p), ContentOf(At(dst.root, p)))
    requires Unvisited(root0, src.root, dst.root, p) && Marked(root0, src.root, dst.root, junk) && Tidy(root0)
    modifies src`root, dst`root, common`root
    ensures src.root == old(src.root) && common.root == old(common.root)
    ensures Comparable(src, dst, common)
    ensures var s, c, d := At(src.root, p), At(common.root, p), ContentOf(At(old(dst.root), p));
      && Distinct(names) && (forall n :: n in names <==> GoesInside(s, c, d, n))
      && Has(ContentOf(old(dst.root)), p)
      && ContentOf(dst.root) == PutAt(ContentOf(old(dst.root)), p, AppliedHere(s, c, d))
    ensures Progress(root0, src.root, old(dst.root), dst.root, p, At(common.root, p), done, junk)
  {
    hide Marked, Progress, WithEntries, NewNames, Tidy, OpenTo, Spell, Has, At, ContentOf, PutAt, AppliedHere,
         PartlyApplied, HandlerEffect, GoesInside, OpOf, Applicable;
    TidyOpens(src.root, p);
    TidyOpens(common.root, p);
    var at := DirAt(src, dirname, p);
    var cat := DirAt(common, dirname, p);
    var s, c := At(src.root, at), At(common.root, cat);
    ghost var d, whole, s0 := ContentOf(At(dst.root, p)), ContentOf(dst.root), src.root;
    ContentAt(dst.root, p);
    ContentKind(At(dst.root, p));
    var ops := Diff(s, c);
    names := [];
    done := {};
    ghost var r0 := dst.root;
    NoneApplied(s, c, d);
    ProgressStarts(root0, s0, r0, p, c, junk);
    PutSame(whole, p);
    for k := 0 to |ops|
      invariant src.root == old(src.root) && common.root == old(common.root)
      invariant dst.root.Dir? && HasDir(dst.root, p)
      invariant PartlyApplied(ContentOf(At(dst.root, p)), s, c, d, done)
      invariant Progress(root0, s0, r0, dst.root, p, c, done, junk)
      invariant ContentOf(dst.root) == PutAt(whole, p, ContentOf(At(dst.root, p)))
      invariant forall n :: n in done <==> exists j :: 0 <= j < k && ops[j].1 == n
      invariant Distinct(names) && forall n :: n in names <==> n in done && GoesInside(s, c, d, n)
    {
      var op, n := ops[k].0, ops[k].1;
      assert n !in done;
      ProgressMarks(root0, s0, r0, dst.root, p, c, done, junk);
      var dstAt := DirAt(dst, dirname, p);
      ghost var x := ContentOf(At(dst.root, p));
      StillThere(At(dst.root, p), s, c, d, done, n);
      ghost var r := dst.root;
      SameInside(x, s, c, d, done, n);
      ProgressStep(root0, s0, r0, r, p, c, done, junk, op, n);
      var descend := ApplyOne(dst, dstAt, s, c, op, n, junk);
      OneMoreApplied(x, s, c, d, done, op, n);
      PutPut(whole, p, x, ContentOf(At(dst.root, p)));
      done := done + {n};
      if descend {
        names := names + [n];
      }
    }
    forall n ensures OpOf(s, c, n) != Same ==> n in done {
    }
    PartlyToFully(ContentOf(At(dst.root, p)), s, c, d, done);
    forall n ensures n in names <==> GoesInside(s, c, d, n) {
      InsideIsMod(s, c, d, n);
    }
  }

  lemma NoneApplied(s: Entry, c: Entry, d: Content)
    requires s.Dir? && c.Dir? && d.Dir?
    ensures PartlyApplied(d, s, c, d, {})
  {
  }

  lemma SameInside(x: Content, s: Entry, c: Entry, d: Content, done: set<Name>, n: Name)
    requires s.Dir? && c.Dir? && d.Dir? && PartlyApplied(x, s, c, d, done) && n !in done
    ensures GoesInside(s, c, x, n) == GoesInside(s, c, d, n)
  {
  }

  lemma InsideIsMod(s: Entry, c: Entry, d: Content, n: Name)
    requires s.Dir? && c.Dir? && d.Dir?
    ensures GoesInside(s, c, d, n) ==> OpOf(s, c, n) != Same
  {
  }

  /** A modified name not yet dealt with is still in dst. */
  lemma StillThere(e: Entry, s: Entry, c: Entry, d: Content, done: set<Name>, n: Name)
    requires s.Dir? && c.Dir? && d.Dir? && e.Dir?
    requires PartlyApplied(ContentOf(e), s, c, d, done) && n !in done && Applicable(s, c, d)
    ensures OpOf(s, c, n) == Mod ==> n in e.entries
  {
    ShallowContent(e);
  }

  // ------------------------------------------------------------------
  // The whole merge.

  datatype Outcome = MergeDone | Conflicting | Aborted

  ghost function Target(t: Content): Path -> Content {
    p => if Has(t, p) then At(t, p) else t
  }

  /** The directory at p is waiting to be turned into the target's. */
  ghost predicate Waiting(s: Entry, c: Entry, x: Content, t: Content, p: Path) {
    && HasDir(s, p) && HasDir(c, p) && HasDir(x, p) && HasDir(t, p)
    && Applicable(At(s, p), At(c, p), At(x, p))
    && At(t, p) == Merged(At(s, p), At(c, p), At(x, p))
  }

  ghost predicate AllWaiting(s: Entry, c: Entry, x: Content, t: Content, paths: seq<Path>) {
    forall i :: 0 <= i < |paths| ==> Waiting(s, c, x, t, paths[i])
  }

  lemma OthersWait(s: Entry, c: Entry, x: Content, t: Content, p: Path, y: Content, q: Path)
    requires Waiting(s, c, x, t, q) && Has(x, p) && !(p <= q) && !(q <= p)
    ensures Waiting(s, c, PutAt(x, p, y), t, q)
  {
    hide Applicable, Merged, Has, At, PutAt;
    AtPutElsewhere(x, p, y, q);
  }

  lemma ChildrenWait(s: Entry, c: Entry, x: Content, t: Content, p: Path, n: Name)
    requires Waiting(s, c, x, t, p) && GoesInside(At(s, p), At(c, p), At(x, p), n)
    ensures Waiting(s, c, PutAt(x, p, AppliedHere(At(s, p), At(c, p), At(x, p))), t, p + [n])
  {
    hide Applicable, Merged, Has, At, PutAt, AppliedHere;
    var a, b, d := At(s, p), At(c, p), At(x, p);
    var y := AppliedHere(a, b, d);
    var x' := PutAt(x, p, y);
    MergedFinishes(a, b, d);
    AtPut(x, p, y);
    HasChild(s, p, n);
    HasChild(c, p, n);
    HasChild(x', p, n);
    HasChild(t, p, n);
    AppliedIsDir(a, b, d);
    AppliedIsDir(a.entries[n], b.entries[n], d.entries[n]);
  }

  lemma AppliedIsDir(s: Entry, c: Entry, d: Content)
    requires s.Dir? && c.Dir? && d.Dir?
    ensures AppliedHere(s, c, d).Dir? && Merged(s, c, d).Dir?
    ensures forall n :: GoesInside(s, c, d, n) ==> n in AppliedHere(s, c, d).entries
  {
  }

  lemma ApplyStep(s: Entry, c: Entry, x: Content, t: Content, stack: seq<Path>, done: set<Path>, p: Path, names: seq<Name>)
    requires Apart(stack + [p]) && Ahead(stack + [p], done) && Distinct(names)
    requires AllWaiting(s, c, x, t, stack + [p]) && Waiting(s, c, x, t, p)
    requires forall n :: n in names <==> GoesInside(At(s, p), At(c, p), At(x, p), n)
    ensures var work, x' := stack + Below(p, names), PutAt(x, p, AppliedHere(At(s, p), At(c, p), At(x, p)));
      && p !in done && Apart(work) && Ahead(work, done + {p})
      && AllWaiting(s, c, x', t, work)
      && Finish(x', work, Target(t)) == Finish(x, stack + [p], Target(t))
  {
    hide Apart, Ahead, Has, At, PutAt, AppliedHere, Merged, Applicable, Finish, GoesInside, Waiting;
    WaitingDirs(s, c, x, t, p);
    var y := AppliedHere(At(s, p), At(c, p), At(x, p));
    var work, x' := stack + Below(p, names), PutAt(x, p, y);
    StackStep(stack, done, p, names);
    forall i | 0 <= i < |work| ensures Waiting(s, c, x', t, work[i]) {
      if i < |stack| {
        StackApart(stack, p, i);
        assert (stack + [p])[i] == stack[i] == work[i];
        OthersWait(s, c, x, t, p, y, stack[i]);
      } else {
        assert work[i] == p + [names[i - |stack|]];
        assert names[i - |stack|] in names;
        ChildrenWait(s, c, x, t, p, names[i - |stack|]);
      }
    }
    AtPut(x, p, y);
    TargetDiffers(s, c, x, t, p, names);
    FinishChildren(x', stack, p, names, Target(t));
    FinishTop(x', stack, p, Target(t));
    PutPut(x, p, y, Target(t)(p));
    FinishTop(x, stack, p, Target(t));
  }

  lemma WaitingDirs(s: Entry, c: Entry, x: Content, t: Content, p: Path)
    requires Waiting(s, c, x, t, p)
    ensures HasDir(s, p) && HasDir(c, p) && HasDir(x, p) && HasDir(t, p)
  {
  }

  lemma TargetDiffers(s: Entry, c: Entry, x: Content, t: Content, p: Path, names: seq<Name>)
    requires Waiting(s, c, x, t, p)
    requires forall n :: n in names <==> GoesInside(At(s, p), At(c, p), At(x, p), n)
    ensures var y := AppliedHere(At(s, p), At(c, p), At(x, p)); y.Dir? && DiffersAt(y, p, names, Target(t))
  {
    hide Has, At, AppliedHere, Merged, Applicable, GoesInside;
    var a, b, d := At(s, p), At(c, p), At(x, p);
    var y := AppliedHere(a, b, d);
    MergedFinishes(a, b, d);
    AppliedIsDir(a, b, d);
    var f := Target(t)(p);
    assert f == Merged(a, b, d) && f.Dir? && f.info == NoInfo == y.info;
    forall k | 0 <= k < |names|
      ensures names[k] in y.entries && Target(t)(p).entries[names[k]] == Target(t)(p + [names[k]])
    {
      assert names[k] in names;
      HasChild(t, p, names[k]);
    }
    forall n | n in y.entries && n !in names ensures y.entries[n] == f.entries[n] {
      assert !GoesInside(a, b, d, n);
    }
  }

  lemma WaitingAtTop(s: Entry, c: Entry, x: Content, t: Content, stack: seq<Path>, p: Path)
    requires AllWaiting(s, c, x, t, stack + [p])
    ensures Waiting(s, c, x, t, p)
  {
    assert (stack + [p])[|stack|] == p;
  }

  lemma ApplyStart(s: Entry, c: Entry, d: Entry)
    requires s.Dir? && c.Dir? && d.Dir? && Compatible(s, c, d)
    ensures ContentOf(d).Dir?
    ensures var x := ContentOf(d); var t := Merged(s, c, x);
      && Apart([[]]) && Ahead([[]], {}) && AllWaiting(s, c, x, t, [[]])
      && Finish(x, [[]], Target(t)) == t
  {
    hide Compatible, ContentOf, Merged, Applicable;
    CompatibleApplies(s, c, d);
    ContentKind(d);
    var x := ContentOf(d);
    var t := Merged(s, c, x);
    AppliedIsDir(s, c, x);
    var none: seq<Path> := [];
    FinishTop(x, none, [], Target(t));
    assert none + [[]] == [[]];
  }

  lemma WaitingInDst(s: Entry, c: Entry, e: Entry, t: Content, p: Path)
    requires Waiting(s, c, ContentOf(e), t, p)
    ensures HasDir(e, p) && ContentOf(At(e, p)) == At(ContentOf(e), p) && ContentOf(At(e, p)).Dir?
    ensures HasDir(s, p) && HasDir(c, p) && Applicable(At(s, p), At(c, p), ContentOf(At(e, p)))
  {
    hide Applicable, ContentOf, Merged, Has, At;
    ContentAt(e, p);
    ContentKind(At(e, p));
  }

  /** The second loop of merge: after checks that found nothing it produces the
      merged tree. */
  method ApplyPass(src: Repo, dst: Repo, common: Repo, junk: nat)
    requires Mergeable(src, dst, common) && Compatible(src.root, common.root, dst.root)
    modifies src`root, dst`root, common`root
    ensures src.root == old(src.root) && common.root == old(common.root)
    ensures dst.root.Dir? && ContentOf(old(dst.root)).Dir?
    ensures ContentOf(dst.root) == Merged(src.root, common.root, ContentOf(old(dst.root)))
    ensures Marked(old(dst.root), src.root, dst.root, junk)
  {
    hide Compatible, Tidy, Apart, Ahead, Has, At, AllWaiting, Waiting, Below, ContentOf, Merged, Finish, Applicable,
         PutAt, AppliedHere, GoesInside, Target, Spelled, Spell, Marked, AllUnvisited, Unvisited, Progress;
    var queue: seq<bytes> := [src.rootPath];
    ghost var paths: seq<Path>, done: set<Path> := [[]], {};
    ghost var s, c, root0 := src.root, common.root, dst.root;
    SpelledRoot(src.rootPath);
    MarksStart(root0, s, junk);
    ApplyStart(s, c, dst.root);
    ghost var t := Merged(s, c, ContentOf(dst.root));
    while queue != []
      invariant src.root == s && common.root == c && Comparable(src, dst, common)
      invariant Spelled(src.rootPath, queue, paths) && |queue| == |paths|
      invariant Apart(paths) && Ahead(paths, done) && done <= DirPaths(s)
      invariant AllWaiting(s, c, ContentOf(dst.root), t, paths)
      invariant AllUnvisited(root0, s, dst.root, paths) && Marked(root0, s, dst.root, junk)
      invariant Finish(ContentOf(dst.root), paths, Target(t)) == t
      decreases DirPaths(s) - done
    {
      ghost var p, stack := paths[|paths| - 1], paths[..|paths| - 1];
      assert paths == stack + [p];
      SpelledTop(src.rootPath, queue, stack, p);
      var dirname := queue[|queue| - 1];
      queue := queue[..|queue| - 1];
      WaitingAtTop(s, c, ContentOf(dst.root), t, stack, p);
      WaitingInDst(s, c, dst.root, t, p);
      TopUnvisited(root0, s, dst.root, stack, p);
      ghost var x, r0 := ContentOf(dst.root), dst.root;
      var names;
      ghost var seen;
      names, seen := ApplyDir(src, dst, common, dirname, p, junk, root0);
      UnvisitedStep(root0, s, r0, dst.root, stack, p, At(c, p), names, seen, junk);
      ProgressMarks(root0, s, r0, dst.root, p, At(c, p), seen, junk);
      ApplyStep(s, c, x, t, stack, done, p, names);
      SpelledMore(src.rootPath, queue, stack, p, names);
      queue := queue + Spellings(src.rootPath, dirname, p, names);
      paths := stack + Below(p, names);
      DirPathsAre(s, p);
      done := done + {p};
    }
    FinishNothing(ContentOf(dst.root), Target(t));
  }

  lemma FinishNothing(x: Content, final: Path -> Content)
    ensures Finish(x, [], final) == x
  {
  }

  /** r is what a successful merge makes of d: its content, and where each
      directory comes from. */
  ghost predicate IsMerge(s: Entry, c: Entry, d: Entry, r: Entry, junk: nat) {
    && s.Dir? && c.Dir? && d.Dir? && r.Dir? && Compatible(s, c, d)
    && ContentOf(d).Dir? && ContentOf(r) == Merged(s, c, ContentOf(d)) && Marked(d, s, r, junk)
  }

  /** ogl_repo::merge.  It succeeds exactly on compatible trees, and then dst
      holds the three-way merge; otherwise dst is left untouched.  Neither src
      nor common changes. */
  method Merge(src: Repo, dst: Repo, common: Repo, junk: nat) returns (outcome: Outcome)
    requires Mergeable(src, dst, common)
    modifies src`root, dst`root, common`root
    ensures src.root == old(src.root) && common.root == old(common.root)
    ensures outcome == MergeDone <==> Compatible(src.root, common.root, old(dst.root))
    ensures ContentOf(old(dst.root)).Dir?
    ensures outcome == MergeDone ==>
              && ContentOf(dst.root) == Merged(src.root, common.root, ContentOf(old(dst.root)))
              && IsMerge(src.root, common.root, old(dst.root), dst.root, junk)
    ensures outcome != MergeDone ==> dst.root == old(dst.root)
  {
    hide Compatible, Merged, Tidy, ContentOf, Marked;
    ContentKind(dst.root);
    var v := CheckPass(src, dst, common);
    if v == Clash {
      return Conflicting;
    }
    if v == Abort {
      return Aborted;
    }
    ApplyPass(src, dst, common, junk);
    outcome := MergeDone;
  }
}
