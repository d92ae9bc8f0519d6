/** Sessions whose changes may also go to directories that are not loaded: which
    directories make the assert of commit fail, and what a commit that gets
    through stores. */
module OglAnySession {
  import opened Wire
  import opened OglTree
  import opened OglCodec
  import opened OglRepo
  import opened OglMerge
  import opened OglCommit
  import opened OglSession

  // ------------------------------------------------------------------
  // What lookups and commits rely on.

  /** A tree is stored under the hash. */
  ghost predicate Rooted(store: Store, hash: nat) {
    exists u: Stored :: u.Dir? && u.info == hash && Reloads(store, u)
  }

  /** Every directory that commit would not dump can be read. */
  ghost predicate Fit(store: Store, e: Entry) {
    e.Dir? ==>
      && (!(e.info.modified && e.info.loaded) ==> Rooted(store, e.info.hash))
      && forall n :: n in e.entries ==> Fit(store, e.entries[n])
  }

  lemma {:induction false} FitAt(store: Store, e: Entry, p: Path)
    requires Fit(store, e) && Has(e, p)
    ensures Fit(store, At(e, p))
  {
    if p != [] {
      FitAt(store, e.entries[p[0]], p[1..]);
    }
  }

  lemma {:induction false} FitPut(store: Store, e: Entry, p: Path, x: Entry)
    requires Fit(store, e) && Has(e, p) && Fit(store, x)
    ensures Fit(store, PutAt(e, p, x))
  {
    if p != [] {
      FitPut(store, e.entries[p[0]], p[1..], x);
    }
  }

  lemma {:induction false} FitGrows(before: Store, after: Store, e: Entry)
    requires Fit(before, e) && Grown(before, after)
    ensures Fit(after, e)
  {
    if e.Dir? {
      if !(e.info.modified && e.info.loaded) { RootedGrows(before, after, e.info.hash); }
      forall n | n in e.entries ensures Fit(after, e.entries[n]) {
        FitGrows(before, after, e.entries[n]);
      }
    }
  }

  lemma RootedGrows(before: Store, after: Store, hash: nat)
    requires Rooted(before, hash) && Grown(before, after)
    ensures Rooted(after, hash)
  {
    hide Reloads;
    var u: Stored :| u.Dir? && u.info == hash && Reloads(before, u);
    ReloadsGrows(before, after, u);
  }

  lemma RowIsFit(store: Store, t: Stored)
    requires Reloads(store, t)
    ensures Fit(store, FromRef(RefOf(t)))
  {
    hide DecodeDir;
    if t.Dir? {
      assert Rooted(store, t.info);
    }
  }

  lemma LoadFit(store: Store, e: Entry)
    requires Fit(store, e) && e.Dir? && !e.info.loaded
    ensures Loadable(store, e.info.hash) && Fit(store, LoadDir(store, e))
  {
    hide DecodeDir;
    var u: Stored :| u.Dir? && u.info == e.info.hash && Reloads(store, u);
    var l := LoadDir(store, e);
    forall n | n in u.entries ensures n in l.entries && Fit(store, l.entries[n]) {
      RowIsFit(store, u.entries[n]);
    }
  }

  lemma {:induction false} WithEntriesFit(store: Store, root: Entry, at: Path, entries: map<Name, Entry>)
    requires Fit(store, root) && HasDir(root, at) && forall n :: n in entries ==> Fit(store, entries[n])
    ensures Fit(store, WithEntries(root, at, entries))
    decreases |at|
  {
    if at != [] {
      WithEntriesStep(root, at, entries);
      WithEntriesFit(store, root.entries[at[0]], at[1..], entries);
    }
  }

  // ------------------------------------------------------------------
  // Directories marked without having been loaded.

  predicate IsPending(e: Entry, p: Path) {
    HasDir(e, p) && At(e, p).info.modified && !At(e, p).info.loaded
  }

  ghost predicate NoPending(e: Entry) {
    e.Dir? ==> (e.info.modified ==> e.info.loaded) && forall n :: n in e.entries ==> NoPending(e.entries[n])
  }

  /** They lie in marked directories only, hold nothing but what was put there
      since, and all others that are not loaded are empty. */
  ghost predicate Neat(e: Entry) {
    e.Dir? ==>
      && (!e.info.modified ==> forall n :: n in e.entries ==> NoPending(e.entries[n]))
      && (!e.info.loaded ==> forall n :: n in e.entries ==> AllLoaded(e.entries[n]))
      && (!e.info.loaded && !e.info.modified ==> e.entries == map[])
      && forall n :: n in e.entries ==> Neat(e.entries[n])
  }

  lemma {:induction false} NeatAt(e: Entry, p: Path)
    requires Neat(e) && Has(e, p)
    ensures Neat(At(e, p))
  {
    if p != [] {
      NeatAt(e.entries[p[0]], p[1..]);
    }
  }

  lemma {:induction false} LoadedNothingPending(e: Entry)
    requires AllLoaded(e)
    ensures NoPending(e)
  {
    if e.Dir? {
      forall n | n in e.entries ensures NoPending(e.entries[n]) {
        LoadedNothingPending(e.entries[n]);
      }
    }
  }

  lemma {:induction false} NothingPendingAt(e: Entry, p: Path)
    requires NoPending(e)
    ensures !IsPending(e, p)
  {
    if p != [] && e.Dir? && p[0] in e.entries {
      NothingPendingAt(e.entries[p[0]], p[1..]);
    }
  }

  lemma {:induction false} NothingPendingMeans(e: Entry)
    requires forall p :: !IsPending(e, p)
    ensures NoPending(e)
  {
    if e.Dir? {
      assert !IsPending(e, []);
      forall n | n in e.entries ensures NoPending(e.entries[n]) {
        forall p ensures !IsPending(e.entries[n], p) {
          var q := [n] + p;
          assert q[0] == n && q[1..] == p;
          assert !IsPending(e, q);
        }
        NothingPendingMeans(e.entries[n]);
      }
    }
  }

  /** They are what the assert of commit fails on. */
  lemma {:induction false} AssertsIffNone(e: Entry)
    requires Neat(e)
    ensures CommitAsserts(e) <==> NoPending(e)
  {
    if e.Dir? {
      forall n | n in e.entries ensures CommitAsserts(e.entries[n]) <==> NoPending(e.entries[n]) {
        AssertsIffNone(e.entries[n]);
      }
    }
  }

  // ------------------------------------------------------------------
  // Loading.

  lemma LoadNeat(store: Store, e: Entry)
    requires Neat(e) && e.Dir? && !e.info.loaded && Loadable(store, e.info.hash)
    ensures Neat(LoadDir(store, e)) && NoPending(LoadDir(store, e))
  {
    hide DecodeDir;
    var l := LoadDir(store, e);
    forall n | n in l.entries ensures NoPending(l.entries[n]) && Neat(l.entries[n]) {
      if n in e.entries { LoadedNothingPending(e.entries[n]); }
    }
  }

  lemma {:induction false} LoadPutNeat(store: Store, root: Entry, p: Path)
    requires Neat(root) && HasDir(root, p) && !At(root, p).info.loaded && Loadable(store, At(root, p).info.hash)
    ensures var r := PutAt(root, p, LoadDir(store, At(root, p))); Neat(r) && (NoPending(root) ==> NoPending(r))
    decreases |p|
  {
    hide DecodeDir, LoadDir, Loadable;
    if p == [] {
      LoadNeat(store, root);
    } else {
      var n := p[0];
      LoadPutNeat(store, root.entries[n], p[1..]);
      if AllLoaded(root.entries[n]) { AllLoadedAt(root.entries[n], p[1..]); }
    }
  }

  /** Loading takes away the mark of the one directory. */
  lemma LoadClears(store: Store, root: Entry, p: Path, q: Path)
    requires Neat(root) && HasDir(root, p) && !At(root, p).info.loaded && Loadable(store, At(root, p).info.hash)
    ensures IsPending(PutAt(root, p, LoadDir(store, At(root, p))), q) <==> IsPending(root, q) && q != p
  {
    hide DecodeDir, LoadDir, Loadable, Has, At, PutAt, NoPending, Neat;
    var e := At(root, p);
    var x := LoadDir(store, e);
    var r := PutAt(root, p, x);
    NeatAt(root, p);
    LoadNeat(store, e);
    AtPut(root, p, x);
    if p <= q {
      var b := q[|p|..];
      assert q == p + b;
      HasJoin(root, p, b);
      HasJoin(r, p, b);
      NothingPendingAt(x, b);
      PendingIsTop(e, b);
    } else if q <= p {
      AtPutAncestor(root, p, x, q);
    } else {
      AtPutElsewhere(root, p, x, q);
    }
  }

  lemma PendingIsTop(e: Entry, p: Path)
    requires Neat(e) && e.Dir? && !e.info.loaded
    ensures IsPending(e, p) ==> p == []
  {
    if p != [] && p[0] in e.entries {
      LoadedNothingPending(e.entries[p[0]]);
      NothingPendingAt(e.entries[p[0]], p[1..]);
    }
  }

  /** A lookup of `rest` from p on goes on from q, if q is there. */
  predicate GoesOn(p: Path, rest: seq<bytes>, q: Path) {
    p <= q < p + rest
  }

  /** A lookup finds all the objects it needs, and of the directories marked
      without having been loaded it clears just those it goes on from. */
  lemma {:induction false} FindClears(store: Store, root: Entry, p: Path, rest: seq<bytes>)
    requires Fit(store, root) && Neat(root) && Has(root, p)
    ensures CanFind(store, root, p, rest)
    ensures var r := FindFrom(store, root, p, rest).1;
      && Fit(store, r) && Neat(r)
      && forall q: Path :: IsPending(r, q) <==> IsPending(root, q) && !GoesOn(p, rest, q)
    decreases |rest|
  {
    hide DecodeDir, LoadDir, PutAt, Loadable, Fit, Neat, IsPending;
    if rest != [] && At(root, p).Dir? {
      var d := At(root, p);
      FitAt(store, root, p);
      if !d.info.loaded {
        LoadFit(store, d);
        LoadIsDir(store, d);
        LoadPutNeat(store, root, p);
      } else {
        PutSame(root, p);
      }
      var d' := if d.info.loaded then d else LoadDir(store, d);
      var root' := PutAt(root, p, d');
      FitPut(store, root, p, d');
      AtPut(root, p, d');
      forall q: Path ensures IsPending(root', q) <==> IsPending(root, q) && q != p {
        ClearedAt(store, root, p, q);
      }
      if rest[0] in d'.entries {
        HasChild(root', p, rest[0]);
        FindClears(store, root', p + [rest[0]], rest[1..]);
        forall q: Path ensures GoesOn(p, rest, q) <==> q == p || GoesOn(p + [rest[0]], rest[1..], q) {
          OneNameOn(q, p, rest);
        }
      } else {
        forall q: Path | GoesOn(p, rest, q) && q != p ensures !IsPending(root', q) {
          OneNameOn(q, p, rest);
          NotPastMissing(root', p, q);
        }
      }
    } else {
      forall q: Path | GoesOn(p, rest, q) ensures !IsPending(root, q) {
        NotBelowLeaf(root, p, q);
      }
    }
  }

  lemma ClearedAt(store: Store, root: Entry, p: Path, q: Path)
    requires Neat(root) && HasDir(root, p) && (!At(root, p).info.loaded ==> Loadable(store, At(root, p).info.hash))
    ensures var d := At(root, p);
      var r := PutAt(root, p, if d.info.loaded then d else LoadDir(store, d));
      IsPending(r, q) <==> IsPending(root, q) && q != p
  {
    hide DecodeDir, LoadDir, PutAt, Loadable, Neat;
    if At(root, p).info.loaded {
      PutSame(root, p);
    } else {
      LoadClears(store, root, p, q);
    }
  }

  lemma NotPastMissing(root: Entry, p: Path, q: Path)
    requires HasDir(root, p) && p < q && q[|p|] !in At(root, p).entries
    ensures !IsPending(root, q)
  {
    hide Has, At;
    if Has(root, q) {
      FirstStep(root, p, q);
    }
  }

  lemma NotBelowLeaf(root: Entry, p: Path, q: Path)
    requires Has(root, p) && At(root, p).Leaf? && p <= q
    ensures !IsPending(root, q)
  {
    hide Has, At;
    if HasDir(root, q) {
      DirOnTheWay(root, p, q);
    }
  }

  // ------------------------------------------------------------------
  // Changing.

  /** A directory's entries with one name changed, to a leaf or a new directory
      if to anything. */
  ghost predicate OneChanged(a: map<Name, Entry>, b: map<Name, Entry>, n: Name) {
    && (forall m :: m != n ==> SameName(a, b, m))
    && (n in b ==> AllLoaded(b[n]) && Neat(b[n]))
  }

  lemma ChangeIsOne(e: Entry, ch: Change, junk: nat)
    requires e.Dir? && Applies(ch, e.entries)
    ensures OneChanged(e.entries, Changed(ch, e.entries, junk), ch.name)
  {
  }

  lemma {:induction false} WithEntriesNeat(root: Entry, at: Path, entries: map<Name, Entry>, n: Name)
    requires Neat(root) && HasDir(root, at) && OneChanged(At(root, at).entries, entries, n)
    ensures Neat(WithEntries(root, at, entries))
    ensures AllLoaded(root) ==> AllLoaded(WithEntries(root, at, entries))
    decreases |at|
  {
    if at == [] {
      forall m | m in entries && m != n ensures m in root.entries && entries[m] == root.entries[m] {
        assert SameName(root.entries, entries, m);
      }
    } else {
      WithEntriesStep(root, at, entries);
      WithEntriesNeat(root.entries[at[0]], at[1..], entries, n);
    }
  }

  /** A directory above another one is loaded or marked. */
  lemma MarkedAbove(root: Entry, p: Path, at: Path)
    requires Neat(root) && HasDir(root, at) && p < at
    ensures HasDir(root, p) && (At(root, p).info.loaded || At(root, p).info.modified)
  {
    hide Has, At;
    DirOnTheWay(root, p, at);
    NeatAt(root, p);
    FirstStep(root, p, at);
  }

  /** What a change does to the directories marked without having been loaded:
      what was under the name goes, and the directory itself is one of them if
      it is not loaded. */
  lemma ChangeMarks(root: Entry, at: Path, entries: map<Name, Entry>, n: Name, p: Path)
    requires Neat(root) && HasDir(root, at) && OneChanged(At(root, at).entries, entries, n)
    ensures IsPending(WithEntries(root, at, entries), p) <==>
            (IsPending(root, p) && !(at + [n] <= p)) || (p == at && !At(root, at).info.loaded)
  {
    hide Has, At, WithEntries, Neat, OneChanged;
    var r := WithEntries(root, at, entries);
    if p <= at {
      WithEntriesAbove(root, at, entries, p);
      if p != at {
        MarkedAbove(root, p, at);
        assert !(at + [n] <= p);
      } else {
        assert |at + [n]| > |p|;
      }
    } else if at <= p {
      var m, q := p[|at|], p[|at| + 1..];
      assert p == at + [m] + q && (at + [n] <= p <==> m == n) by { NameOfWay(at, n, p); }
      WithEntriesBelow(root, at, entries, m, q);
      HasChild(root, at, m);
      HasJoin(root, at + [m], q);
      OneName(At(root, at).entries, entries, n, m);
      if m == n && n in entries {
        LoadedNothingPending(entries[n]);
        NothingPendingAt(entries[n], q);
      }
    } else {
      WithEntriesElsewhere(root, at, entries, p);
      assert at + [n] <= p ==> at <= p;
    }
  }

  lemma NameOfWay(at: Path, n: Name, p: Path)
    requires at < p
    ensures p == at + [p[|at|]] + p[|at| + 1..] && (at + [n] <= p <==> p[|at|] == n)
  {
  }

  lemma OneName(a: map<Name, Entry>, b: map<Name, Entry>, n: Name, m: Name)
    requires OneChanged(a, b, n)
    ensures if m == n then (n in b ==> AllLoaded(b[n])) else SameName(a, b, m)
  {
  }

  // ------------------------------------------------------------------
  // Committing.

  /** The tree stored under a hash. */
  ghost function TreeUnder(store: Store, hash: nat): (t: Stored)
    requires Rooted(store, hash)
    ensures t.Dir? && t.info == hash && Reloads(store, t)
  {
    var u: Stored :| u.Dir? && u.info == hash && Reloads(store, u);
    u
  }

  /** What a commit stores: of a marked directory what is in memory, of any other
      what was stored under its hash before, whatever is in memory. */
  ghost function Stores(env: Env, store: Store, e: Entry, p: Path): (t: Stored)
    requires ValidEnv(env) && AllValid(e) && Fit(store, e) && CommitAsserts(e)
    ensures e.Dir? ==> t.Dir?
    decreases e
  {
    match e
    case Leaf(l) => Leaf(StoredOf(GatherLeaf(env, l, p)))
    case Dir(d, entries) =>
      if !d.modified then TreeUnder(store, d.hash)
      else
        Dir(HashAfter(env, e, p),
            map n | n in entries && !IsPlaceholder(entries[n]) :: Stores(env, store, entries[n], p + [n]))
  }

  lemma {:induction false} CommitStores(env: Env, before: Store, after: Store, e: Entry, p: Path)
    requires ValidEnv(env) && AllValid(e) && Fit(before, e) && CommitAsserts(e) && !IsPlaceholder(e) && Grown(before, after)
    requires AllValid(Gather(env, e, p)) && AllStored(env, after, DirObjects(env, Gather(env, e, p), p))
    ensures Recorded(after, Dumped(env, Gather(env, e, p), p), Stores(env, before, e, p))
    decreases e
  {
    hide DecodeDir, EncodeDir, AllStored, Pow256, Reloads;
    if e.Leaf? {
      LeafReloads(after, Stores(env, before, e, p));
    } else if !e.info.modified {
      ReloadsGrows(before, after, TreeUnder(before, e.info.hash));
    } else {
      var g := Gather(env, e, p);
      var kids := DumpedChildren(env, g, p);
      var t := Stores(env, before, e, p);
      forall n | n in t.entries ensures Recorded(after, kids[n], t.entries[n]) {
        ChildStored(env, after, g, p, n);
        CommitStores(env, before, after, e.entries[n], p + [n]);
      }
      forall n ensures n in t.entries <==> n in kids && !IsPlaceholder(kids[n]) {
        if n in kids { SamePlaceholder(env, e.entries[n], p + [n]); }
      }
      var o := DirObject(env, g, p);
      assert o in DirObjects(env, g, p);
      assert AllStored(env, after, DirObjects(env, g, p));
      OneStored(env, after, DirObjects(env, g, p), o);
      ObjectReloads(env, after, kids, o, t.entries);
      DumpedDir(env, g, p);
    }
  }

  lemma LeafReloads(store: Store, t: Stored)
    requires t.Leaf?
    ensures Reloads(store, t)
  {
  }

  lemma OneStored(env: Env, store: Store, objects: set<bytes>, o: bytes)
    requires AllStored(env, store, objects) && o in objects
    ensures |o| < TWO16 && env.hash(o) in store && store[env.hash(o)] == o
  {
  }

  lemma SamePlaceholder(env: Env, e: Entry, p: Path)
    requires ValidEnv(env) && AllValid(Gather(env, e, p))
    ensures IsPlaceholder(Dumped(env, Gather(env, e, p), p)) <==> IsPlaceholder(e)
  {
  }

  lemma {:induction false} CommitFits(env: Env, before: Store, after: Store, e: Entry, p: Path)
    requires ValidEnv(env) && AllValid(e) && Fit(before, e) && CommitAsserts(e) && Grown(before, after)
    requires AllValid(Gather(env, e, p)) && AllStored(env, after, DirObjects(env, Gather(env, e, p), p))
    ensures Fit(after, Dumped(env, Gather(env, e, p), p))
    decreases e
  {
    hide DecodeDir, EncodeDir, AllStored, Pow256, Reloads;
    if IsModifiedDir(e) {
      var g := Gather(env, e, p);
      forall n | n in e.entries ensures Fit(after, Dumped(env, g.entries[n], p + [n])) {
        ChildStored(env, after, g, p, n);
        CommitFits(env, before, after, e.entries[n], p + [n]);
      }
      CommitStores(env, before, after, e, p);
      DumpedDir(env, g, p);
      RecordedIsRooted(after, Dumped(env, g, p), Stores(env, before, e, p));
    } else if e.Dir? {
      FitGrows(before, after, e);
    }
  }

  lemma RecordedIsRooted(store: Store, e: Entry, t: Stored)
    requires Recorded(store, e, t) && e.Dir?
    ensures Rooted(store, e.info.hash)
  {
    hide Reloads;
    assert t.Dir? && t.info == e.info.hash;
  }

  lemma {:induction false} CommitNeat(env: Env, e: Entry, p: Path)
    requires ValidEnv(env) && Neat(e) && CommitAsserts(e) && AllValid(Gather(env, e, p))
    ensures Neat(Dumped(env, Gather(env, e, p), p)) && NoPending(Dumped(env, Gather(env, e, p), p))
    decreases e
  {
    hide Pow256, ObjectOf;
    AssertsIffNone(e);
    if IsModifiedDir(e) {
      var g := Gather(env, e, p);
      ChildrenAllValid(g);
      forall n | n in e.entries
        ensures Neat(Dumped(env, g.entries[n], p + [n])) && NoPending(Dumped(env, g.entries[n], p + [n]))
      {
        CommitNeat(env, e.entries[n], p + [n]);
      }
      DumpedDir(env, g, p);
    }
  }

  // ------------------------------------------------------------------
  // Sessions.

  ghost predicate Workable(s: State) {
    s.root.Dir? && Fit(s.store, s.root) && Neat(s.root) && AllValid(s.root)
  }

  /** Any change to a directory found, and any commit whose assert holds. */
  ghost predicate Allowed(s: State, a: Action) {
    Sensible(s, a) && (a.Save? ==> CommitAsserts(s.root))
  }

  /** The action marks the directory at p, which is not loaded. */
  predicate MarksBlindly(s: State, a: Action, p: Path) {
    a.Do? && a.at == p && HasDir(s.root, p) && Applies(a.ch, At(s.root, p).entries) && !At(s.root, p).info.loaded
  }

  /** It goes on from p, or takes p away with a name above. */
  predicate Clears(s: State, a: Action, p: Path) {
    match a
    case Look(names) => GoesOn([], names, p)
    case Do(at, ch) => HasDir(s.root, at) && Applies(ch, At(s.root, at).entries) && at + [ch.name] <= p
    case Save(_) => false
  }

  /** The directories marked without having been loaded, after an action. */
  ghost predicate PendingMoves(s: State, a: Action, s': State, p: Path) {
    IsPending(s'.root, p) <==> (IsPending(s.root, p) && !Clears(s, a, p)) || MarksBlindly(s, a, p)
  }

  lemma LookWorks(s: State, names: seq<bytes>, s': State, junk: nat)
    requires Workable(s) && Moves(s, Look(names), s', junk)
    ensures CanFind(s.store, s.root, [], names) && Workable(s')
    ensures forall p :: PendingMoves(s, Look(names), s', p)
  {
    hide Fit, Neat, AllValid, FindFrom, CanFind, GoesOn, IsPending;
    FindClears(s.store, s.root, [], names);
    FindValid(s.store, s.root, [], names);
    FindKeepsDir(s.store, s.root, [], names);
  }

  lemma ChangeWorks(s: State, at: Path, ch: Change, s': State, junk: nat)
    requires Workable(s) && Sensible(s, Do(at, ch)) && Moves(s, Do(at, ch), s', junk) && junk < Pow256(8)
    ensures Workable(s')
    ensures forall p :: PendingMoves(s, Do(at, ch), s', p)
  {
    hide Fit, Neat, AllValid, IsPending, Applies, Changed, WithEntries, Pow256, Has, At;
    var e := At(s.root, at);
    ChangeValid(s.root, at, ch, junk);
    ChangeKeepsDir(s.root, at, ch, junk);
    if Applies(ch, e.entries) {
      var entries := Changed(ch, e.entries, junk);
      ChangeIsOne(e, ch, junk);
      WithEntriesNeat(s.root, at, entries, ch.name);
      FitAt(s.store, s.root, at);
      ChangedFit(s.store, e, ch, junk);
      WithEntriesFit(s.store, s.root, at, entries);
      forall p ensures PendingMoves(s, Do(at, ch), s', p) {
        ChangeMarks(s.root, at, entries, ch.name, p);
      }
    }
  }

  lemma ChangedFit(store: Store, e: Entry, ch: Change, junk: nat)
    requires e.Dir? && Fit(store, e) && Applies(ch, e.entries)
    ensures forall n :: n in Changed(ch, e.entries, junk) ==> Fit(store, Changed(ch, e.entries, junk)[n])
  {
  }

  lemma SaveWorks(s: State, env: Env, s': State, junk: nat)
    requires Workable(s) && Allowed(s, Save(env)) && Moves(s, Save(env), s', junk)
    ensures Workable(s')
    ensures forall p :: PendingMoves(s, Save(env), s', p)
  {
    hide Fit, Neat, NoPending, CommitAsserts, AllValid, Gather, Dumped, PartsStored, IsPending, Pow256;
    var g := Gather(env, s.root, []);
    GatherValid(env, s.root, []);
    PartsAreWhole(env, s'.store, g, []);
    CommitFits(env, s.store, s'.store, s.root, []);
    CommitNeat(env, s.root, []);
    DumpedAllValid(env, g, []);
    GatheredIsDir(env, s.root);
    AssertsIffNone(s.root);
    forall p ensures PendingMoves(s, Save(env), s', p) {
      NothingPendingAt(s.root, p);
      NothingPendingAt(s'.root, p);
    }
  }

  lemma GatheredIsDir(env: Env, e: Entry)
    requires e.Dir? && ValidEnv(env) && AllValid(Gather(env, e, []))
    ensures Dumped(env, Gather(env, e, []), []).Dir?
  {
  }

  lemma ActionWorks(s: State, a: Action, s': State, junk: nat)
    requires Workable(s) && Allowed(s, a) && Moves(s, a, s', junk) && junk < Pow256(8)
    ensures Workable(s')
    ensures forall p :: PendingMoves(s, a, s', p)
  {
    hide Workable, Moves, PendingMoves, Pow256, Sensible, CommitAsserts;
    match a
    case Look(names) => LookWorks(s, names, s', junk);
    case Do(at, ch) => ChangeWorks(s, at, ch, s', junk);
    case Save(env) => SaveWorks(s, env, s', junk);
  }

  ghost predicate AnySession(states: seq<State>, actions: seq<Action>, junk: nat) {
    && |states| == |actions| + 1
    && forall k :: 0 <= k < |actions| ==>
         Allowed(states[k], actions[k]) && Moves(states[k], actions[k], states[k + 1], junk)
  }

  /** Action k has marked the directory at p, and none since has gone on from it
      or taken it away. */
  ghost predicate StaysMarked(states: seq<State>, actions: seq<Action>, p: Path, k: nat)
    requires |states| == |actions| + 1
  {
    && k < |actions| && MarksBlindly(states[k], actions[k], p)
    && forall j :: k < j < |actions| ==> !Clears(states[j], actions[j], p)
  }

  ghost predicate SomeStayMarked(states: seq<State>, actions: seq<Action>, p: Path)
    requires |states| == |actions| + 1
  {
    exists k: nat :: StaysMarked(states, actions, p, k)
  }

  lemma OneMoreAction(states: seq<State>, actions: seq<Action>, p: Path)
    requires |states| == |actions| + 1 && actions != []
    ensures var k := |actions| - 1;
      SomeStayMarked(states, actions, p) <==>
      (SomeStayMarked(states[..|actions|], actions[..k], p) && !Clears(states[k], actions[k], p))
      || MarksBlindly(states[k], actions[k], p)
  {
    hide Clears, MarksBlindly;
    var n := |actions| - 1;
    var ss, aa := states[..|actions|], actions[..n];
    if SomeStayMarked(ss, aa, p) && !Clears(states[n], actions[n], p) {
      var k: nat :| StaysMarked(ss, aa, p, k);
      forall j | k < j < |actions| ensures !Clears(states[j], actions[j], p) {
        assert j < n ==> !Clears(ss[j], aa[j], p);
      }
      assert StaysMarked(states, actions, p, k);
    }
    if MarksBlindly(states[n], actions[n], p) {
      assert StaysMarked(states, actions, p, n);
    }
    if SomeStayMarked(states, actions, p) {
      var k: nat :| StaysMarked(states, actions, p, k);
      if k < n {
        forall j | k < j < n ensures !Clears(ss[j], aa[j], p) {
          assert !Clears(states[j], actions[j], p);
        }
        assert StaysMarked(ss, aa, p, k);
      }
    }
  }

  /** Whatever is looked up, changed and committed, no lookup misses an object,
      and the directories marked without having been loaded are known from the
      actions. */
  lemma {:induction false} AnySessionWorks(states: seq<State>, actions: seq<Action>, junk: nat)
    requires AnySession(states, actions, junk) && Workable(states[0]) && NoPending(states[0].root) && junk < Pow256(8)
    ensures Workable(states[|actions|])
    ensures forall p :: IsPending(states[|actions|].root, p) <==> SomeStayMarked(states, actions, p)
    decreases |actions|
  {
    hide Workable, Moves, Allowed, NoPending, IsPending, SomeStayMarked, Clears, MarksBlindly, Pow256;
    if actions == [] {
      forall p ensures IsPending(states[0].root, p) <==> SomeStayMarked(states, actions, p) {
        NothingPendingAt(states[0].root, p);
        NoneBefore(states, actions, p);
      }
    } else {
      var k := |actions| - 1;
      AnySessionWorks(states[..|actions|], actions[..k], junk);
      ActionWorks(states[k], actions[k], states[k + 1], junk);
      forall p ensures IsPending(states[|actions|].root, p) <==> SomeStayMarked(states, actions, p) {
        assert PendingMoves(states[k], actions[k], states[k + 1], p);
        OneMoreAction(states, actions, p);
      }
    }
  }

  lemma NoneBefore(states: seq<State>, actions: seq<Action>, p: Path)
    requires |states| == |actions| + 1 && actions == []
    ensures !SomeStayMarked(states, actions, p)
  {
  }

  /** After any session the assert of commit holds if and only if no directory
      has been marked while not loaded without a lookup going on from it since,
      or it being taken away. */
  lemma AnyCommitAsserts(states: seq<State>, actions: seq<Action>, junk: nat)
    requires AnySession(states, actions, junk) && Workable(states[0]) && NoPending(states[0].root) && junk < Pow256(8)
    ensures CommitAsserts(states[|actions|].root) <==> !exists p :: SomeStayMarked(states, actions, p)
  {
    hide Fit, Neat, CommitAsserts, NoPending, AllValid, IsPending, Allowed, Moves, SomeStayMarked, Pow256;
    AnySessionWorks(states, actions, junk);
    var e := states[|actions|].root;
    AssertsIffNone(e);
    if NoPending(e) {
      forall p ensures !SomeStayMarked(states, actions, p) {
        NothingPendingAt(e, p);
      }
    } else if !exists p :: SomeStayMarked(states, actions, p) {
      NothingPendingMeans(e);
    }
  }

  /** A lookup in any state of a session finds all the objects it needs. */
  lemma AnyLookupWorks(states: seq<State>, actions: seq<Action>, junk: nat, names: seq<bytes>)
    requires AnySession(states, actions, junk) && Workable(states[0]) && NoPending(states[0].root) && junk < Pow256(8)
    ensures CanFind(states[|actions|].store, states[|actions|].root, [], names)
  {
    hide Fit, Neat, CommitAsserts, NoPending, AllValid, IsPending, SomeStayMarked, Pow256, CanFind, Allowed, Moves;
    AnySessionWorks(states, actions, junk);
    FindClears(states[|actions|].store, states[|actions|].root, [], names);
  }

  /** After any session and a commit that gets through, the repository opened
      again has what commit stores: of each directory marked at the time what
      was in memory, of any other what was stored before. */
  lemma AnySessionThenCommit(states: seq<State>, actions: seq<Action>, junk: nat, env: Env, last: State, p: Path)
    requires AnySession(states, actions, junk) && Workable(states[0]) && NoPending(states[0].root) && junk < Pow256(8)
    requires Allowed(states[|actions|], Save(env)) && Moves(states[|actions|], Save(env), last, junk)
    ensures var s := states[|actions|];
      && Fit(s.store, s.root) && last.root.Dir? && Loadable(last.store, last.root.info.hash)
      && CanFind(last.store, Opened(last.store, last.root.info.hash), [], p)
      && var (t, (q, y)) := (Stores(env, s.store, s.root, []), FindFrom(last.store, Opened(last.store, last.root.info.hash), [], p));
         && (q.Found? <==> Has(t, p))
         && (q.Found? ==> q.at == p && Has(y, p) && Shows(At(y, p), At(t, p)))
  {
    hide Fit, Neat, NoPending, CommitAsserts, AllValid, Gather, Dumped, PartsStored, IsPending, Pow256, Stores, CanFind, FindFrom,
         Loadable, Shows, Reloads, SomeStayMarked;
    AnySessionWorks(states, actions, junk);
    var s := states[|actions|];
    GatherValid(env, s.root, []);
    PartsAreWhole(env, last.store, Gather(env, s.root, []), []);
    CommitStores(env, s.store, last.store, s.root, []);
    GatheredIsDir(env, s.root);
    OpenedFinds(last.store, Stores(env, s.store, s.root, []), p);
  }

  /** A repository just opened on a stored tree is one to start from. */
  lemma OpenedWorks(store: Store, t: Stored)
    requires t.Dir? && Reloads(store, t) && t.info < Pow256(8)
    ensures Loadable(store, t.info)
    ensures Workable(State(Opened(store, t.info), store)) && NoPending(Opened(store, t.info))
  {
    hide DecodeDir, Pow256, LoadDir;
    var e := FromRef(Ref(ENT_DIR, t.info));
    assert RefOf(t) == Ref(ENT_DIR, t.info);
    RowIsFit(store, t);
    LoadFit(store, e);
    LoadNeat(store, e);
    LoadValid(store, e);
    LoadIsDir(store, e);
  }
}
