/** Working on a repository: lookups that load, changes and commits in any
    order, from opening it on, and what a repository opened later finds. */
module OglSession {
  import opened Wire
  import opened OglTree
  import opened OglCodec
  import opened OglRepo
  import opened OglMerge
  import opened OglCommit

  // ------------------------------------------------------------------
  // Field widths.

  lemma {:induction false} ValidPut(e: Entry, p: Path, x: Entry)
    requires AllValid(e) && Has(e, p) && AllValid(x)
    ensures AllValid(PutAt(e, p, x))
  {
    hide Pow256;
    if p != [] {
      ValidPut(e.entries[p[0]], p[1..], x);
    }
  }

  lemma LongFits(s: bytes, at: nat)
    requires at + 8 <= |s|
    ensures Long(s, at) < Pow256(8)
  {
    hide Pow256, Get;
  }

  lemma {:induction false} RowsFit(s: bytes, hashOffset: nat, i: nat)
    ensures ReadRows(s, hashOffset, i).Loaded? ==>
            forall n :: n in ReadRows(s, hashOffset, i).refs ==> ReadRows(s, hashOffset, i).refs[n].hash < Pow256(8)
  {
    hide Pow256, Get, Long, CString, Short;
    assert Pow256(8) > 0;
    if i > 0 {
      RowsFit(s, hashOffset, i - 1);
      if hashOffset + 8 * (i - 1) + 8 <= |s| { LongFits(s, hashOffset + 8 * (i - 1)); }
    }
  }

  /** What is read from an object file fits its fields. */
  lemma LoadValid(store: Store, e: Entry)
    requires e.Dir? && AllValid(e) && Loadable(store, e.info.hash)
    ensures AllValid(LoadDir(store, e))
  {
    hide Pow256, ReadRows;
    var s := store[e.info.hash];
    RowsFit(s, Short(s, 8), Short(s, 6));
    var l := LoadDir(store, e);
    assert Pow256(8) > 0;
    forall n | n in l.entries ensures AllValid(l.entries[n]) {
    }
  }

  // ------------------------------------------------------------------
  // Lookups between changes.

  lemma {:induction false} ShownHas(e: Entry, t: Stored, p: Path)
    requires Shows(e, t) && HasDir(e, p)
    ensures Has(t, p)
  {
    if p != [] {
      var n := p[0];
      assert HasDir(e.entries[n], p[1..]);
      assert e.entries[n].Dir? && n in t.entries;
      ShownHas(e.entries[n], t.entries[n], p[1..]);
    }
  }

  /** A directory not loaded is unmodified and can be loaded. */
  lemma LoadableThere(store: Store, e: Entry)
    requires Ready(store, e) && e.Dir? && !e.info.loaded
    ensures Loadable(store, e.info.hash) && Stands(store, LoadDir(store, e)) && Stands(store, e)
    ensures !LoadDir(store, e).info.modified && !e.info.modified
  {
    hide DecodeDir;
    var t :| Shows(e, t) && Reloads(store, t);
    LoadShows(store, e, t);
  }

  /** Loading a directory anywhere keeps a committable tree committable. */
  lemma {:induction false} LoadedReady(store: Store, root: Entry, p: Path)
    requires Ready(store, root) && HasDir(root, p) && !At(root, p).info.loaded
    ensures Loadable(store, At(root, p).info.hash)
    ensures Ready(store, PutAt(root, p, LoadDir(store, At(root, p))))
  {
    hide DecodeDir, LoadDir, Loadable, Shows, Reloads;
    ReadyAt(store, root, p);
    LoadableThere(store, At(root, p));
    var x := LoadDir(store, At(root, p));
    if p == [] {
    } else if root.info.modified {
      LoadedReady(store, root.entries[p[0]], p[1..]);
    } else {
      var t :| Shows(root, t) && Reloads(store, t);
      StandingPut(store, root, t, p);
    }
  }

  lemma StandingPut(store: Store, root: Entry, t: Stored, p: Path)
    requires Shows(root, t) && Reloads(store, t) && HasDir(root, p) && !At(root, p).info.loaded
    ensures Loadable(store, At(root, p).info.hash)
    ensures Stands(store, PutAt(root, p, LoadDir(store, At(root, p))))
  {
    hide DecodeDir, Shows, Reloads, Loadable, LoadDir;
    ShownHas(root, t, p);
    ShowsAt(root, t, p);
    ReloadsAt(store, t, p);
    LoadShows(store, At(root, p), At(t, p));
    ShowsPut(root, t, p, LoadDir(store, At(root, p)));
  }

  /** A lookup in a tree with changes never needs a missing object, and what it
      loads keeps the tree committable. */
  lemma {:induction false} FindReady(store: Store, root: Entry, p: Path, rest: seq<bytes>)
    requires Ready(store, root) && Has(root, p)
    ensures CanFind(store, root, p, rest)
    ensures Ready(store, FindFrom(store, root, p, rest).1)
    decreases |rest|
  {
    hide DecodeDir, LoadDir, PutAt, Loadable, Ready, Stands;
    if rest != [] && At(root, p).Dir? {
      var d := At(root, p);
      if !d.info.loaded {
        LoadedReady(store, root, p);
        LoadIsDir(store, d);
      } else {
        PutSame(root, p);
      }
      var d' := if d.info.loaded then d else LoadDir(store, d);
      var root' := PutAt(root, p, d');
      AtPut(root, p, d');
      if rest[0] in d'.entries {
        HasChild(root', p, rest[0]);
        FindReady(store, root', p + [rest[0]], rest[1..]);
      }
    }
  }

  /** And its fields fit. */
  lemma {:induction false} FindValid(store: Store, root: Entry, p: Path, rest: seq<bytes>)
    requires AllValid(root) && CanFind(store, root, p, rest)
    ensures AllValid(FindFrom(store, root, p, rest).1)
    decreases |rest|
  {
    hide DecodeDir, LoadDir, PutAt, Loadable, AllValid;
    if rest != [] && At(root, p).Dir? {
      var d := At(root, p);
      ValidAt(root, p);
      if !d.info.loaded {
        LoadValid(store, d);
        LoadIsDir(store, d);
      }
      var d' := if d.info.loaded then d else LoadDir(store, d);
      ValidPut(root, p, d');
      if rest[0] in d'.entries {
        FindValid(store, PutAt(root, p, d'), p + [rest[0]], rest[1..]);
      }
    }
  }

  /** The way goes through `at`: it is here, or still ahead. */
  lemma OneNameOn(at: Path, p: Path, rest: seq<bytes>)
    requires rest != []
    ensures var q := p + [rest[0]];
      && q + rest[1..] == p + rest
      && ((p <= at < p + rest) <==> p == at || (q <= at < p + rest))
      && (at < q ==> at <= p)
    ensures p < at < p + rest ==> at[|p|] == rest[0]
  {
    var q, all := p + [rest[0]], p + rest;
    assert q + rest[1..] == all && all[|p|] == rest[0];
    if p < at < all {
      assert at[|p|] == all[|p|] == rest[0];
      assert q <= at;
    }
  }

  lemma ChangeValid(root: Entry, at: Path, ch: Change, junk: nat)
    requires AllValid(root) && HasDir(root, at) && junk < Pow256(8)
    ensures AllValid(AfterChange(root, at, ch, junk))
  {
    hide Pow256;
    var entries := At(root, at).entries;
    ValidAt(root, at);
    assert Pow256(8) > 0;
    if Applies(ch, entries) {
      ValidWithEntries(root, at, Changed(ch, entries, junk));
    }
  }

  lemma {:induction false} ValidWithEntries(root: Entry, at: Path, entries: map<Name, Entry>)
    requires AllValid(root) && HasDir(root, at) && forall n :: n in entries ==> AllValid(entries[n])
    ensures AllValid(WithEntries(root, at, entries))
  {
    hide Pow256;
    if at != [] {
      WithEntriesStep(root, at, entries);
      ValidWithEntries(root.entries[at[0]], at[1..], entries);
    }
  }

  // ------------------------------------------------------------------
  // What a commit makes of what was seen before it.

  /** The entry read from the row that leads to t. */
  function RowOf(t: Stored): Entry {
    FromRef(RefOf(t))
  }

  lemma ShownIsRow(e: Entry, t: Stored)
    requires Shows(e, t)
    ensures Alike(e, RowOf(t))
  {
  }

  /** The hash that an entry seen at p before the commit has after it: the old
      one, or that of the file, of the link's object or of the directory's. */
  ghost function HashAfter(env: Env, e: Entry, p: Path): nat
    requires ValidEnv(env) && AllValid(e)
  {
    match e
    case Leaf(File(hash, _, valid)) => if valid then hash else env.file(p)
    case Leaf(Symlink(hash, _, changed)) => if changed then env.hash(env.link(p)) else hash
    case Leaf(_) => 0
    case Dir(d, _) =>
      GatherValid(env, e, p);
      if d.modified then env.hash(DirObject(env, Gather(env, e, p), p)) else d.hash
  }

  /** A lookup before the commit, against the tree t committed. */
  ghost predicate Foretells(env: Env, e: Entry, r: (Lookup, Entry), t: Stored, q: Path, rest: Path)
    requires ValidEnv(env)
  {
    && (r.0.Found? ==> r.0.at == rest && Has(r.1, rest))
    && (Has(t, rest) <==> r.0.Found? && !IsPlaceholder(At(r.1, rest)))
    && (Has(t, rest) ==>
          && AllValid(At(r.1, rest))
          && KindOf(At(r.1, rest)) == KindOf(RowOf(At(t, rest)))
          && HashAfter(env, At(r.1, rest), q + rest) == HashOf(RowOf(At(t, rest))))
  }

  /** At the entry itself. */
  lemma ForetellsHere(env: Env, e: Entry, q: Path, t: Stored)
    requires ValidEnv(env) && AllValid(e) && AllValid(Gather(env, e, q)) && Shows(Dumped(env, Gather(env, e, q), q), t)
    ensures KindOf(e) == KindOf(RowOf(t)) && HashAfter(env, e, q) == HashOf(RowOf(t)) && !IsPlaceholder(e)
  {
    hide Pow256, EncodeDir;
    if IsModifiedDir(e) {
      DumpedDir(env, Gather(env, e, q), q);
    }
  }

  /** Below an unmodified directory. */
  lemma ForetellsBelow(env: Env, before: Store, e: Entry, q: Path, t: Stored, rest: Path)
    requires ValidEnv(env) && AllValid(e) && e.Dir? && !e.info.modified && Shows(e, t) && Reloads(before, t) && rest != []
    ensures CanFind(before, e, [], rest)
    ensures Foretells(env, e, FindFrom(before, e, [], rest), t, q, rest)
  {
    hide DecodeDir, Pow256, Shows, Reloads, AllValid, FindFrom, CanFind;
    FindShows(before, e, t, [], rest);
    FindValid(before, e, [], rest);
    assert [] + rest == rest;
    var (r, e') := FindFrom(before, e, [], rest);
    if Has(t, rest) {
      ValidAt(e', rest);
      ShownIsRow(At(e', rest), At(t, rest));
      ShownHash(env, At(e', rest), At(t, rest), q + rest);
    }
  }

  lemma ShownHash(env: Env, e: Entry, t: Stored, p: Path)
    requires ValidEnv(env) && AllValid(e) && Shows(e, t)
    ensures HashAfter(env, e, p) == HashOf(e) && !IsPlaceholder(e)
  {
    hide Pow256;
  }

  /** A lookup goes on in the child, as a lookup there. */
  lemma FindInChild(store: Store, e: Entry, n: Name, rest: Path)
    requires e.Dir? && e.info.loaded && n in e.entries && CanFind(store, e.entries[n], [], rest)
    ensures CanFind(store, e, [], [n] + rest)
    ensures var (r, x) := FindFrom(store, e.entries[n], [], rest);
      FindFrom(store, e, [], [n] + rest) == (Shifted([n], r), Dir(e.info, e.entries[n := x]))
  {
    hide DecodeDir, LoadDir;
    var all := [n] + rest;
    assert all[0] == n && all[1..] == rest;
    var one: Path := [n];
    assert one[1..] == [] && one + [] == one && [] + one == one;
    assert Has(e, one) && At(e, one) == e.entries[n];
    FindBelow(store, e, one, [], rest);
    assert PutAt(e, [], e) == e;
    var x := FindFrom(store, e.entries[n], [], rest).1;
    assert PutAt(e, one, x) == Dir(e.info, e.entries[n := PutAt(e.entries[n], one[1..], x)]);
    assert CanFind(store, e, one, rest);
  }

  lemma PlaceholderFinds(store: Store, e: Entry, rest: Path)
    requires IsPlaceholder(e)
    ensures CanFind(store, e, [], rest) && FindFrom(store, e, [], rest) == (if rest == [] then Found([]) else NotFound, e)
  {
    hide DecodeDir, LoadDir;
  }

  /** What a lookup finds before the commit, at any path, is in the tree
      committed, and nothing else is. */
  lemma {:induction false} FindForetells(env: Env, before: Store, after: Store, e: Entry, q: Path, t: Stored, rest: Path)
    requires Ready(before, e) && ValidEnv(env) && AllValid(e) && Grown(before, after)
    requires AllValid(Gather(env, e, q)) && Shows(Dumped(env, Gather(env, e, q), q), t) && Reloads(after, t)
    ensures CanFind(before, e, [], rest)
    ensures Foretells(env, e, FindFrom(before, e, [], rest), t, q, rest)
    decreases |rest|
  {
    hide DecodeDir, EncodeDir, Pow256, FindFrom, CanFind, HashAfter;
    if rest == [] {
      FindHere(before, e);
      assert q + rest == q;
      ForetellsHere(env, e, q, t);
    } else if e.Leaf? {
      LeafFindsNothing(before, e, rest);
    } else if !e.info.modified {
      var u :| Shows(e, u) && Reloads(before, u);
      ReloadsGrows(before, after, u);
      HashDeterminesTree(after, t, u);
      ForetellsBelow(env, before, e, q, t, rest);
    } else {
      ForetellsInside(env, before, after, e, q, t, rest);
    }
  }

  lemma FindHere(store: Store, e: Entry)
    ensures CanFind(store, e, [], []) && FindFrom(store, e, [], []) == (Found([]), e)
  {
  }

  lemma LeafFindsNothing(store: Store, e: Entry, rest: Path)
    requires e.Leaf? && rest != []
    ensures CanFind(store, e, [], rest) && FindFrom(store, e, [], rest) == (NotFound, e)
  {
  }

  lemma NoSuchName(store: Store, e: Entry, rest: Path)
    requires e.Dir? && e.info.loaded && rest != [] && rest[0] !in e.entries
    ensures CanFind(store, e, [], rest) && FindFrom(store, e, [], rest) == (NotFound, e)
  {
    hide DecodeDir, LoadDir;
  }

  lemma ForetoldInChild(env: Env, e: Entry, n: Name, c: (Lookup, Entry), t: Stored, q: Path, below: Path)
    requires ValidEnv(env) && e.Dir? && n in e.entries && t.Dir? && n in t.entries
    requires Foretells(env, e.entries[n], c, t.entries[n], q + [n], below)
    ensures Foretells(env, e, (Shifted([n], c.0), Dir(e.info, e.entries[n := c.1])), t, q, [n] + below)
  {
    hide HashAfter, Pow256;
    var all, e' := [n] + below, Dir(e.info, e.entries[n := c.1]);
    assert all[0] == n && all[1..] == below && q + all == (q + [n]) + below;
    assert Has(t, all) <==> Has(t.entries[n], below);
    assert Has(e', all) <==> Has(c.1, below);
    if Has(c.1, below) {
      assert At(e', all) == At(c.1, below);
    }
    if Has(t, all) {
      assert At(t, all) == At(t.entries[n], below);
    }
  }

  lemma ForetoldMissing(env: Env, e: Entry, n: Name, c: (Lookup, Entry), t: Stored, q: Path, below: Path)
    requires ValidEnv(env) && e.Dir? && n in e.entries && t.Dir? && n !in t.entries
    requires IsPlaceholder(c.1) && c.0 == (if below == [] then Found([]) else NotFound)
    ensures Foretells(env, e, (Shifted([n], c.0), Dir(e.info, e.entries[n := c.1])), t, q, [n] + below)
  {
    var all, e' := [n] + below, Dir(e.info, e.entries[n := c.1]);
    assert all[0] == n && all[1..] == below && [n] + [] == [n];
    assert !Has(t, all);
    if below == [] {
      assert At(e', all) == c.1;
    }
  }

  lemma MissingIsForetold(env: Env, e: Entry, t: Stored, q: Path, rest: Path)
    requires ValidEnv(env) && !Has(t, rest)
    ensures Foretells(env, e, (NotFound, e), t, q, rest)
  {
  }

  /** In a modified directory. */
  lemma {:induction false} ForetellsInside(env: Env, before: Store, after: Store, e: Entry, q: Path, t: Stored, rest: Path)
    requires Ready(before, e) && ValidEnv(env) && AllValid(e) && Grown(before, after) && IsModifiedDir(e) && rest != []
    requires AllValid(Gather(env, e, q)) && Shows(Dumped(env, Gather(env, e, q), q), t) && Reloads(after, t)
    ensures CanFind(before, e, [], rest)
    ensures Foretells(env, e, FindFrom(before, e, [], rest), t, q, rest)
    decreases |rest|, 0
  {
    hide DecodeDir, EncodeDir, Pow256, FindFrom, CanFind, Foretells;
    var n, below := rest[0], rest[1..];
    assert rest == [n] + below && q + rest == (q + [n]) + below;
    DumpedDir(env, Gather(env, e, q), q);
    if n !in e.entries {
      NoSuchName(before, e, rest);
      MissingIsForetold(env, e, t, q, rest);
    } else {
      var c, g := e.entries[n], Gather(env, e.entries[n], q + [n]);
      assert Dumped(env, Gather(env, e, q), q).entries[n] == Dumped(env, g, q + [n]);
      DumpedKind(env, g, q + [n]);
      if IsPlaceholder(c) {
        PlaceholderFinds(before, c, below);
        ForetoldMissing(env, e, n, FindFrom(before, c, [], below), t, q, below);
      } else {
        FindForetells(env, before, after, c, q + [n], t.entries[n], below);
        ForetoldInChild(env, e, n, FindFrom(before, c, [], below), t, q, below);
      }
      FindInChild(before, e, n, below);
    }
  }

  /** Opening the repository again after a commit: it finds a path if and only
      if a lookup in memory before the commit finds an entry there that is not
      marked removed, of the same kind, and with the hash that commit gives it. */
  lemma CommitAnswers(env: Env, before: Store, root: Entry, after: Store, root': Entry, p: Path)
    requires ValidEnv(env) && AllValid(root) && root.Dir? && Ready(before, root) && Sized(env, root)
    requires CommitsTo(env, root, before, root', after)
    ensures CanFind(before, root, [], p)
    ensures root'.Dir? && Loadable(after, root'.info.hash) && CanFind(after, Opened(after, root'.info.hash), [], p)
    ensures var (r, x) := FindFrom(before, root, [], p);
      var (s, y) := FindFrom(after, Opened(after, root'.info.hash), [], p);
      && (r.Found? ==> r.at == p && Has(x, p)) && (s.Found? ==> s.at == p && Has(y, p))
      && (s.Found? <==> r.Found? && !IsPlaceholder(At(x, p)))
      && (s.Found? ==>
            && AllValid(At(x, p)) && KindOf(At(y, p)) == KindOf(At(x, p))
            && HashOf(At(y, p)) == HashAfter(env, At(x, p), p))
  {
    hide Ready, AllValid, Dumped, Gather, Shows, Reloads, CanFind, FindFrom, HashAfter, Pow256, PartsStored, Loadable, Sized;
    CommittedStands(env, root, before, root', after);
    GatherValid(env, root, []);
    var t :| Shows(root', t) && Reloads(after, t);
    ShownDir(root', t);
    FindForetells(env, before, after, root, [], t, p);
    assert [] + p == p;
    OpenedFinds(after, t, p);
    if Has(t, p) {
      ShownIsRow(At(FindFrom(after, Opened(after, t.info), [], p).1, p), At(t, p));
    }
  }

  lemma ShownDir(e: Entry, t: Stored)
    requires e.Dir? && Shows(e, t)
    ensures t.Dir? && t.info == e.info.hash
  {
  }

  // ------------------------------------------------------------------
  // Sessions.

  /** The tree in memory and the object files. */
  datatype State = State(root: Entry, store: Store)

  /** What a user does: look a path up, change a directory, commit. */
  datatype Action = Look(names: seq<bytes>) | Do(at: Path, ch: Change) | Save(env: Env)

  /** A tree that commit can dump and whose fields fit the object layout. */
  ghost predicate InOrder(s: State) {
    s.root.Dir? && Ready(s.store, s.root) && AllValid(s.root)
  }

  /** What an action needs: for a change its directory, for a commit the
      assumptions about hashes and sizes. */
  ghost predicate Sensible(s: State, a: Action) {
    match a
    case Look(_) => true
    case Do(at, _) => HasDir(s.root, at)
    case Save(env) =>
      && ValidEnv(env) && AllValid(s.root) && Sized(env, s.root)
      && NoCollision(env, s.store, CommitObjects(env, s.root))
  }

  /** Here the changes go to directories that have been loaded. */
  ghost predicate Possible(s: State, a: Action) {
    Sensible(s, a) && (a.Do? ==> At(s.root, a.at).info.loaded)
  }

  ghost predicate Moves(s: State, a: Action, s': State, junk: nat)
    requires Sensible(s, a)
  {
    match a
    case Look(names) =>
      CanFind(s.store, s.root, [], names) ==> s' == State(FindFrom(s.store, s.root, [], names).1, s.store)
    case Do(at, ch) => s' == State(AfterChange(s.root, at, ch, junk), s.store)
    case Save(env) => CommitsTo(env, s.root, s.store, s'.root, s'.store)
  }

  lemma {:induction false} FindKeepsDir(store: Store, root: Entry, p: Path, rest: seq<bytes>)
    requires root.Dir? && CanFind(store, root, p, rest)
    ensures FindFrom(store, root, p, rest).1.Dir?
    decreases |rest|
  {
    hide DecodeDir, LoadDir, Loadable;
    if rest != [] && At(root, p).Dir? {
      var d := At(root, p);
      if !d.info.loaded { LoadIsDir(store, d); }
      var d' := if d.info.loaded then d else LoadDir(store, d);
      if rest[0] in d'.entries {
        FindKeepsDir(store, PutAt(root, p, d'), p + [rest[0]], rest[1..]);
      }
    }
  }

  lemma ActionInOrder(s: State, a: Action, s': State, junk: nat)
    requires InOrder(s) && Possible(s, a) && Moves(s, a, s', junk) && junk < Pow256(8)
    ensures InOrder(s')
  {
    hide Ready, AllValid, AfterChange, FindFrom, CanFind, Pow256, CommitsTo, Sized, NoCollision, ValidEnv;
    match a
    case Look(names) =>
      FindReady(s.store, s.root, [], names);
      FindValid(s.store, s.root, [], names);
      FindKeepsDir(s.store, s.root, [], names);
    case Do(at, ch) =>
      ChangeReady(s.store, s.root, at, ch, junk);
      ChangeValid(s.root, at, ch, junk);
      ChangeKeepsDir(s.root, at, ch, junk);
    case Save(env) =>
      SaveInOrder(env, s, s');
  }

  lemma ChangeKeepsDir(root: Entry, at: Path, ch: Change, junk: nat)
    requires root.Dir? && HasDir(root, at)
    ensures AfterChange(root, at, ch, junk).Dir?
  {
  }

  lemma SaveInOrder(env: Env, s: State, s': State)
    requires InOrder(s) && ValidEnv(env) && Sized(env, s.root) && CommitsTo(env, s.root, s.store, s'.root, s'.store)
    ensures InOrder(s')
  {
    hide Pow256, ObjectOf, AllValid, Stands, Sized, PartsStored, Gather;
    CommittedStands(env, s.root, s.store, s'.root, s'.store);
    GatherValid(env, s.root, []);
    DumpedAllValid(env, Gather(env, s.root, []), []);
    UnmodifiedReady(env, s.root, s'.store);
  }

  lemma UnmodifiedReady(env: Env, root: Entry, store: Store)
    requires ValidEnv(env) && AllValid(Gather(env, root, [])) && Stands(store, Dumped(env, Gather(env, root, []), []))
    ensures Ready(store, Dumped(env, Gather(env, root, []), []))
  {
    hide Pow256, ObjectOf, AllValid, Stands;
  }

  lemma {:induction false} DumpedAllValid(env: Env, e: Entry, p: Path)
    requires ValidEnv(env) && AllValid(e)
    ensures AllValid(Dumped(env, e, p))
  {
    hide Pow256, ObjectOf;
    if IsModifiedDir(e) {
      var d := Dumped(env, e, p);
      forall n | n in d.entries ensures AllValid(d.entries[n]) {
        DumpedAllValid(env, e.entries[n], p + [n]);
      }
    }
  }

  ghost predicate Session(states: seq<State>, actions: seq<Action>, junk: nat) {
    && |states| == |actions| + 1
    && forall k :: 0 <= k < |actions| ==>
         Possible(states[k], actions[k]) && Moves(states[k], actions[k], states[k + 1], junk)
  }

  /** Whatever is looked up, changed and committed, in whatever order, the tree
      stays one that lookup and commit find all they need for. */
  lemma {:induction false} SessionInOrder(states: seq<State>, actions: seq<Action>, junk: nat)
    requires Session(states, actions, junk) && InOrder(states[0]) && junk < Pow256(8)
    ensures InOrder(states[|actions|])
    decreases |actions|
  {
    hide InOrder, Possible, Moves, Pow256;
    if actions != [] {
      var k := |actions| - 1;
      SessionInOrder(states[..|actions|], actions[..k], junk);
      ActionInOrder(states[k], actions[k], states[k + 1], junk);
    }
  }

  /** A repository just opened on a stored tree is one to start from. */
  lemma OpenedInOrder(store: Store, t: Stored)
    requires t.Dir? && Reloads(store, t) && t.info < Pow256(8)
    ensures Loadable(store, t.info) && InOrder(State(Opened(store, t.info), store))
  {
    hide DecodeDir, Pow256, LoadDir;
    var e := FromRef(Ref(ENT_DIR, t.info));
    assert Shows(e, t);
    LoadShows(store, e, t);
    LoadValid(store, e);
    LoadableThere(store, e);
    LoadIsDir(store, e);
  }

  /** After any session and then a commit, the repository opened again finds a
      path if and only if a lookup before that commit does, with the kind seen
      then and the hash that commit gives. */
  lemma SessionThenCommit(states: seq<State>, actions: seq<Action>, junk: nat, env: Env, last: State, p: Path)
    requires Session(states, actions, junk) && InOrder(states[0]) && junk < Pow256(8)
    requires Possible(states[|actions|], Save(env)) && Moves(states[|actions|], Save(env), last, junk)
    ensures var s := states[|actions|];
      && CanFind(s.store, s.root, [], p)
      && last.root.Dir? && Loadable(last.store, last.root.info.hash)
      && CanFind(last.store, Opened(last.store, last.root.info.hash), [], p)
      && var (r, x) := FindFrom(s.store, s.root, [], p);
         var (r', y) := FindFrom(last.store, Opened(last.store, last.root.info.hash), [], p);
         && (r.Found? ==> r.at == p && Has(x, p)) && (r'.Found? ==> r'.at == p && Has(y, p))
         && (r'.Found? <==> r.Found? && !IsPlaceholder(At(x, p)))
         && (r'.Found? ==>
               && AllValid(At(x, p)) && KindOf(At(y, p)) == KindOf(At(x, p))
               && HashOf(At(y, p)) == HashAfter(env, At(x, p), p))
  {
    hide Ready, AllValid, CommitsTo, Sized, NoCollision, ValidEnv, Pow256, FindFrom, CanFind, HashAfter, Loadable;
    SessionInOrder(states, actions, junk);
    var s := states[|actions|];
    CommitAnswers(env, s.store, s.root, last.store, last.root, p);
  }
}
