/** A change to a directory that was found and not yet loaded, the lookups that
    follow it, and what becomes of it in the commit. */
module OglUnloaded {
  import opened Wire
  import opened OglTree
  import opened OglCodec
  import opened OglRepo
  import opened OglMerge
  import opened OglCommit
  import opened OglSession

  /** What the store has of the directory, and the entry put under a name. */
  datatype Blind = Blind(stored: Stored, name: Name, entry: Entry)

  /** The entry is a leaf or a new directory. */
  predicate IsNew(b: Blind) {
    b.stored.Dir? && (b.entry.Dir? ==> b.entry.info.modified && b.entry.info.loaded && b.entry.entries == map[])
  }

  /** Before the directory is loaded it has nothing but the new entry. */
  ghost predicate Pending(store: Store, e: Entry, b: Blind)
    requires IsNew(b)
  {
    && e.Dir? && e.info.hash == b.stored.info && e.info.modified && !e.info.loaded
    && e.entries == map[b.name := b.entry] && Reloads(store, b.stored)
  }

  /** Loading it adds what is stored, over the new entry if it is of that name,
      and takes the mark away. */
  ghost predicate Lost(store: Store, e: Entry, b: Blind)
    requires IsNew(b)
  {
    && e.Dir? && e.info.hash == b.stored.info && !e.info.modified && e.info.loaded && Reloads(store, b.stored)
    && (forall m :: m in e.entries <==> m in b.stored.entries || m == b.name)
    && (forall m :: m in b.stored.entries ==> Shows(e.entries[m], b.stored.entries[m]))
    && (b.name !in b.stored.entries ==> e.entries[b.name] == b.entry)
  }

  /** That directory is at `at`; all above it is modified, and all beside it can
      be committed. */
  ghost predicate Along(store: Store, e: Entry, at: Path, b: Blind, lost: bool)
    requires IsNew(b)
    decreases |at|
  {
    if at == [] then if lost then Lost(store, e, b) else Pending(store, e, b)
    else
      && e.Dir? && e.info.modified && e.info.loaded && at[0] in e.entries
      && Along(store, e.entries[at[0]], at[1..], b, lost)
      && forall m :: m in e.entries && m != at[0] ==> Ready(store, e.entries[m])
  }

  lemma {:induction false} AlongAt(store: Store, e: Entry, at: Path, b: Blind, lost: bool)
    requires IsNew(b) && Along(store, e, at, b, lost)
    ensures HasDir(e, at) && At(e, at).info.loaded == lost
  {
    if at != [] {
      AlongAt(store, e.entries[at[0]], at[1..], b, lost);
    }
  }

  // ------------------------------------------------------------------
  // The change.

  /** In a directory without entries in memory only adding and marking apply. */
  lemma {:induction false} ChangeAlong(store: Store, root: Entry, at: Path, u: Stored, entries: map<Name, Entry>, b: Blind)
    requires Ready(store, root) && HasDir(root, at) && !At(root, at).info.loaded
    requires Shows(At(root, at), u) && Reloads(store, u)
    requires IsNew(b) && b.stored == u && entries == map[b.name := b.entry]
    ensures Along(store, WithEntries(root, at, entries), at, b, false)
  {
    hide DecodeDir;
    if at != [] {
      var n := at[0];
      LoadedOnTheWay(store, root, n);
      StandingChild(store, root, n);
      ChangeAlong(store, root.entries[n], at[1..], u, entries, b);
      WithEntriesStep(root, at, entries);
      var r := WithEntries(root, at, entries);
      forall m | m in r.entries && m != n ensures Ready(store, r.entries[m]) {
        StandingChild(store, root, m);
      }
    }
  }

  // ------------------------------------------------------------------
  // The lookups.

  /** What the store has of a directory not loaded. */
  ghost function Unread(store: Store, root: Entry, at: Path): (u: Stored)
    requires Ready(store, root) && HasDir(root, at) && !At(root, at).info.loaded
    ensures u.Dir? && u.info == At(root, at).info.hash && Shows(At(root, at), u) && Reloads(store, u)
  {
    ReadyAt(store, root, at);
    LoadableThere(store, At(root, at));
    TreeOf(store, At(root, at))
  }

  lemma PendingLoads(store: Store, e: Entry, b: Blind)
    requires IsNew(b) && Pending(store, e, b)
    ensures Loadable(store, e.info.hash) && Lost(store, LoadDir(store, e), b)
  {
    hide DecodeDir, Reloads;
    assert DecodeDir(store[e.info.hash]) == Loaded(RefsOf(b.stored)) && e.info.hash in store by { RootReads(store, b.stored); }
    var l := LoadDir(store, e);
    forall m | m in b.stored.entries ensures m in l.entries && Shows(l.entries[m], b.stored.entries[m]) {
      FromRefShows(b.stored.entries[m]);
    }
  }

  lemma RootReads(store: Store, t: Stored)
    requires t.Dir? && Reloads(store, t)
    ensures t.info in store && DecodeDir(store[t.info]) == Loaded(RefsOf(t))
  {
  }

  lemma LoadInside(store: Store, e: Entry, t: Stored, p: Path)
    requires Shows(e, t) && Reloads(store, t) && HasDir(e, p) && !At(e, p).info.loaded
    ensures Loadable(store, At(e, p).info.hash) && Shows(PutAt(e, p, LoadDir(store, At(e, p))), t)
  {
    hide DecodeDir, Shows, Reloads, Loadable, LoadDir;
    ShownHas(e, t, p);
    ShowsAt(e, t, p);
    ReloadsAt(store, t, p);
    LoadShows(store, At(e, p), At(t, p));
    ShowsPut(e, t, p, LoadDir(store, At(e, p)));
  }

  /** There is nothing to load in a new entry. */
  lemma NothingToLoad(b: Blind, p: Path)
    requires IsNew(b)
    ensures HasDir(b.entry, p) ==> At(b.entry, p).info.loaded
  {
  }

  /** Loading inside the directory that has lost its mark. */
  lemma LoadInLost(store: Store, e: Entry, b: Blind, p: Path)
    requires IsNew(b) && Lost(store, e, b) && HasDir(e, p) && !At(e, p).info.loaded
    ensures Loadable(store, At(e, p).info.hash) && Lost(store, PutAt(e, p, LoadDir(store, At(e, p))), b)
  {
    hide DecodeDir, Loadable, LoadDir;
    var below := if p == [] then [] else p[1..];
    NothingToLoad(b, below);
    var n := p[0];
    LoadInside(store, e.entries[n], b.stored.entries[n], below);
  }

  /** Loading anywhere; at the directory itself it loses the change. */
  lemma {:induction false} LoadAlong(store: Store, root: Entry, at: Path, b: Blind, lost: bool, p: Path)
    requires IsNew(b) && Along(store, root, at, b, lost) && HasDir(root, p) && !At(root, p).info.loaded
    ensures Loadable(store, At(root, p).info.hash)
    ensures Along(store, PutAt(root, p, LoadDir(store, At(root, p))), at, b, lost || p == at)
    decreases |at|
  {
    hide DecodeDir, LoadDir, Loadable, Ready, Lost, Pending;
    if at == [] {
      if lost {
        LoadInLost(store, root, b, p);
      } else {
        PendingHasNothing(store, root, b, p);
        PendingLoads(store, root, b);
      }
    } else if p[0] == at[0] {
      LoadAlong(store, root.entries[at[0]], at[1..], b, lost, p[1..]);
      assert p[1..] == at[1..] ==> p == [p[0]] + p[1..] == [at[0]] + at[1..] == at;
    } else {
      LoadedReady(store, root.entries[p[0]], p[1..]);
    }
  }

  lemma PendingHasNothing(store: Store, e: Entry, b: Blind, p: Path)
    requires IsNew(b) && Pending(store, e, b) && HasDir(e, p) && !At(e, p).info.loaded
    ensures p == []
  {
    NothingToLoad(b, if p == [] then [] else p[1..]);
  }

  /** A lookup finds all the objects it needs, and the change is lost if it goes
      on from the directory. */
  lemma {:induction false} FindAlong(store: Store, root: Entry, at: Path, b: Blind, lost: bool, p: Path, rest: seq<bytes>)
    requires IsNew(b) && Along(store, root, at, b, lost) && Has(root, p) && (at < p ==> lost)
    ensures CanFind(store, root, p, rest)
    ensures Along(store, FindFrom(store, root, p, rest).1, at, b, lost || (p <= at < p + rest))
    decreases |rest|
  {
    hide DecodeDir, LoadDir, PutAt, Loadable, Along;
    AlongAt(store, root, at, b, lost);
    if p <= at {
      DirOnTheWay(root, p, at);
    }
    if rest != [] && At(root, p).Dir? {
      var d := At(root, p);
      if !d.info.loaded {
        LoadAlong(store, root, at, b, lost, p);
        LoadIsDir(store, d);
      } else {
        PutSame(root, p);
      }
      var d', lost' := if d.info.loaded then d else LoadDir(store, d), lost || p == at;
      var root' := PutAt(root, p, d');
      AtPut(root, p, d');
      AlongAt(store, root', at, b, lost');
      if rest[0] in d'.entries {
        HasChild(root', p, rest[0]);
        OneNameOn(at, p, rest);
        FindAlong(store, root', at, b, lost', p + [rest[0]], rest[1..]);
      } else if p < at {
        FirstStep(root', p, at);
        OneNameOn(at, p, rest);
      }
    }
  }


  ghost predicate Lookups(store: Store, states: seq<Entry>, paths: seq<seq<bytes>>) {
    && |states| == |paths| + 1
    && forall k :: 0 <= k < |paths| ==>
         (CanFind(store, states[k], [], paths[k]) ==> states[k + 1] == FindFrom(store, states[k], [], paths[k]).1)
  }

  /** One of the lookups went on from the directory. */
  ghost predicate GoneThrough(at: Path, paths: seq<seq<bytes>>) {
    exists k :: 0 <= k < |paths| && at < paths[k]
  }

  lemma {:induction false} LookupsAlong(store: Store, states: seq<Entry>, paths: seq<seq<bytes>>, at: Path, b: Blind)
    requires IsNew(b) && Lookups(store, states, paths) && Along(store, states[0], at, b, false) && AllValid(states[0])
    ensures forall k :: 0 <= k < |paths| ==> CanFind(store, states[k], [], paths[k])
    ensures Along(store, states[|paths|], at, b, GoneThrough(at, paths)) && AllValid(states[|paths|])
    decreases |paths|
  {
    hide Along, FindFrom, CanFind, AllValid;
    if paths != [] {
      var k := |paths| - 1;
      var before := paths[..k];
      LookupsAlong(store, states[..|paths|], before, at, b);
      forall j | 0 <= j < k ensures CanFind(store, states[j], [], paths[j]) {
        assert CanFind(store, states[..|paths|][j], [], before[j]);
      }
      FindAlong(store, states[k], at, b, GoneThrough(at, before), [], paths[k]);
      FindValid(store, states[k], [], paths[k]);
      assert [] + paths[k] == paths[k];
      assert GoneThrough(at, paths) == (GoneThrough(at, before) || at < paths[k]) by { OneMorePath(at, paths); }
    }
  }

  lemma OneMorePath(at: Path, paths: seq<seq<bytes>>)
    requires paths != []
    ensures GoneThrough(at, paths) == (GoneThrough(at, paths[..|paths| - 1]) || at < paths[|paths| - 1])
  {
    var before := paths[..|paths| - 1];
    if GoneThrough(at, before) {
      var k :| 0 <= k < |before| && at < before[k];
      assert at < paths[k];
    }
    if GoneThrough(at, paths) {
      var k :| 0 <= k < |paths| && at < paths[k];
      assert k < |before| ==> at < before[k];
    }
  }

  // ------------------------------------------------------------------
  // The commit.

  lemma {:induction false} AssertsAlong(store: Store, e: Entry, at: Path, b: Blind, lost: bool)
    requires IsNew(b) && Along(store, e, at, b, lost)
    ensures CommitAsserts(e) <==> lost
    decreases |at|
  {
    if at != [] {
      AssertsAlong(store, e.entries[at[0]], at[1..], b, lost);
      forall m | m in e.entries && m != at[0] ensures CommitAsserts(e.entries[m]) {
        ReadyAsserts(store, e.entries[m]);
      }
    }
  }

  /** The tree in memory is what the store will have only where the new entry
      makes no difference. */
  lemma {:induction false} ReadyAlong(store: Store, e: Entry, at: Path, b: Blind, lost: bool)
    requires IsNew(b) && Along(store, e, at, b, lost)
    ensures Ready(store, e) <==> lost && (b.name in b.stored.entries || IsPlaceholder(b.entry))
    decreases |at|
  {
    hide DecodeDir;
    if at != [] {
      ReadyAlong(store, e.entries[at[0]], at[1..], b, lost);
    } else if lost {
      if b.name in b.stored.entries || IsPlaceholder(b.entry) {
        assert Shows(e, b.stored);
      }
      if Stands(store, e) {
        var t :| Shows(e, t) && Reloads(store, t);
        HashDeterminesTree(store, t, b.stored);
      }
    }
  }

  /** A directory that commit skips keeps its hash, and so what is stored. */
  lemma {:induction false} LostIsSkipped(env: Env, before: Store, after: Store, e: Entry, at: Path, b: Blind, q: Path)
    returns (t: Stored)
    requires IsNew(b) && Along(before, e, at, b, true) && ValidEnv(env) && AllValid(e) && Grown(before, after)
    requires AllValid(Gather(env, e, q)) && AllStored(env, after, DirObjects(env, Gather(env, e, q), q))
    ensures Recorded(after, Dumped(env, Gather(env, e, q), q), t)
    ensures Has(t, at) && At(t, at) == b.stored
    decreases |at|
  {
    hide DecodeDir, EncodeDir, AllStored, Pow256, Ready;
    if at == [] {
      t := b.stored;
      ReloadsGrows(before, after, t);
    } else {
      var n := at[0];
      var g := Gather(env, e, q);
      var kids := DumpedChildren(env, g, q);
      ChildStored(env, after, g, q, n);
      var c := LostIsSkipped(env, before, after, e.entries[n], at[1..], b, q + [n]);
      forall m | m in kids && m != n && !IsPlaceholder(kids[m]) ensures Stands(after, kids[m]) {
        ChildStored(env, after, g, q, m);
        ReadyIsCommitted(env, before, after, e.entries[m], q + [m]);
      }
      t := RecordedDir(env, after, g, q, kids, n, c);
    }
  }

  lemma ReadyIsCommitted(env: Env, before: Store, after: Store, e: Entry, q: Path)
    requires Ready(before, e) && ValidEnv(env) && AllValid(e) && Grown(before, after)
    requires AllValid(Gather(env, e, q)) && AllStored(env, after, DirObjects(env, Gather(env, e, q), q))
    ensures !IsPlaceholder(Dumped(env, Gather(env, e, q), q)) ==> Stands(after, Dumped(env, Gather(env, e, q), q))
  {
    hide Ready, AllStored, Gather, Gathered, Stands, DirObjects;
    GatherGathers(env, before, e, q);
    DumpedKind(env, Gather(env, e, q), q);
    if !IsPlaceholder(Gather(env, e, q)) {
      DumpedIsCommitted(env, before, after, Gather(env, e, q), q);
    }
  }

  /** A dumped directory, given a tree for one child that is a directory. */
  lemma RecordedDir(env: Env, store: Store, g: Entry, q: Path, kids: map<Name, Entry>, n: Name, c: Stored) returns (t: Stored)
    requires ValidEnv(env) && AllValid(g) && IsModifiedDir(g) && kids == DumpedChildren(env, g, q)
    requires AllStored(env, store, DirObjects(env, g, q))
    requires n in kids && kids[n].Dir? && Recorded(store, kids[n], c)
    requires forall m :: m in kids && m != n && !IsPlaceholder(kids[m]) ==> Stands(store, kids[m])
    ensures Recorded(store, Dumped(env, g, q), t)
    ensures t.Dir? && n in t.entries && t.entries[n] == c
  {
    hide DecodeDir, EncodeDir, Reloads, Pow256, AllValid, Stands;
    var entries := map m | m in kids && !IsPlaceholder(kids[m]) :: if m == n then c else TreeOf(store, kids[m]);
    forall m | m in entries ensures RefOf(entries[m]) == Ref(ItemOf(kids[m]).kind, ItemOf(kids[m]).hash) {
      if m != n { ShownRef(kids[m], entries[m]); }
    }
    var o := DirObject(env, g, q);
    assert o in DirObjects(env, g, q);
    ObjectReloads(env, store, kids, o, entries);
    DumpedDir(env, g, q);
    t := Dir(env.hash(o), entries);
  }

  // ------------------------------------------------------------------
  // Altogether.

  /** A change that applies at `at` of a committable tree, and lookups after it. */
  ghost predicate ChangedAndSearched(store: Store, root: Entry, at: Path, ch: Change, junk: nat,
                                     states: seq<Entry>, paths: seq<seq<bytes>>) {
    && Ready(store, root) && AllValid(root) && junk < Pow256(8)
    && HasDir(root, at) && Applies(ch, At(root, at).entries)
    && Lookups(store, states, paths) && states[0] == AfterChange(root, at, ch, junk)
  }

  lemma BlindSearch(store: Store, root: Entry, at: Path, ch: Change, junk: nat,
                    states: seq<Entry>, paths: seq<seq<bytes>>) returns (b: Blind)
    requires ChangedAndSearched(store, root, at, ch, junk, states, paths) && !At(root, at).info.loaded
    ensures b == Blind(Unread(store, root, at), ch.name, NewEntry(ch, junk)) && IsNew(b)
    ensures forall k :: 0 <= k < |paths| ==> CanFind(store, states[k], [], paths[k])
    ensures Along(store, states[|paths|], at, b, GoneThrough(at, paths)) && AllValid(states[|paths|])
    ensures IsPlaceholder(b.entry) <==> ch.MarkRemoved?
  {
    hide Ready, AllValid, Along, Reloads, Pow256, Lookups, WithEntries;
    var u := Unread(store, root, at);
    b := Blind(u, ch.name, NewEntry(ch, junk));
    assert At(root, at).entries == map[];
    assert Changed(ch, At(root, at).entries, junk) == map[b.name := b.entry];
    ChangeAlong(store, root, at, u, map[b.name := b.entry], b);
    ChangeValid(root, at, ch, junk);
    LookupsAlong(store, states, paths, at, b);
  }

  lemma {:induction false} LookupsReady(store: Store, states: seq<Entry>, paths: seq<seq<bytes>>)
    requires Lookups(store, states, paths) && Ready(store, states[0])
    ensures forall k :: 0 <= k < |paths| ==> CanFind(store, states[k], [], paths[k])
    ensures Ready(store, states[|paths|])
    decreases |paths|
  {
    hide Ready, FindFrom, CanFind;
    if paths != [] {
      var k := |paths| - 1;
      LookupsReady(store, states[..|paths|], paths[..k]);
      forall j | 0 <= j < k ensures CanFind(store, states[j], [], paths[j]) {
        assert CanFind(store, states[..|paths|][j], [], paths[..k][j]);
      }
      FindReady(store, states[k], [], paths[k]);
    }
  }

  /** After a change the assert of commit holds if and only if the directory was
      loaded, or a lookup has gone on from it since.  The tree in memory is what
      commit will store if and only if it was loaded, or such a lookup has found
      the name in what is stored, or the name was only marked removed. */
  lemma CommitAfterChange(store: Store, root: Entry, at: Path, ch: Change, junk: nat,
                          states: seq<Entry>, paths: seq<seq<bytes>>)
    requires ChangedAndSearched(store, root, at, ch, junk, states, paths)
    ensures forall k :: 0 <= k < |paths| ==> CanFind(store, states[k], [], paths[k])
    ensures CommitAsserts(states[|paths|]) <==> At(root, at).info.loaded || GoneThrough(at, paths)
    ensures Ready(store, states[|paths|]) <==>
            (At(root, at).info.loaded
             || (GoneThrough(at, paths) && (ch.MarkRemoved? || ch.name in Unread(store, root, at).entries)))
  {
    hide Ready, Along, CommitAsserts, AllValid, AfterChange, CanFind, FindFrom, Pow256;
    if At(root, at).info.loaded {
      ChangeReady(store, root, at, ch, junk);
      LookupsReady(store, states, paths);
      ReadyAsserts(store, states[|paths|]);
    } else {
      var b := BlindSearch(store, root, at, ch, junk, states, paths);
      AssertsAlong(store, states[|paths|], at, b, GoneThrough(at, paths));
      ReadyAlong(store, states[|paths|], at, b, GoneThrough(at, paths));
    }
  }

  /** A change to a directory not loaded never reaches the store: when commit
      gets through, the repository opened again finds below that directory just
      what it would have found before the change. */
  lemma BlindChangeIsLost(env: Env, store: Store, root: Entry, at: Path, ch: Change, junk: nat,
                          states: seq<Entry>, paths: seq<seq<bytes>>, after: Store, root': Entry, p: Path)
    requires ChangedAndSearched(store, root, at, ch, junk, states, paths) && !At(root, at).info.loaded
    requires ValidEnv(env) && AllValid(states[|paths|]) && CommitAsserts(states[|paths|]) && Sized(env, states[|paths|])
    requires CommitsTo(env, states[|paths|], store, root', after)
    ensures var u := Unread(store, root, at);
      && root'.Dir? && Loadable(after, root'.info.hash) && CanFind(after, Opened(after, root'.info.hash), [], at + p)
      && var (r, again) := FindFrom(after, Opened(after, root'.info.hash), [], at + p);
         (r.Found? <==> Has(u, p)) && (r.Found? ==> r.at == at + p && Has(again, at + p) && Shows(At(again, at + p), At(u, p)))
  {
    hide Ready, Along, CommitAsserts, AllValid, AfterChange, CanFind, FindFrom, Pow256, AllStored, PartsStored, Gather, Dumped,
         Reloads, Loadable, Shows;
    var b := BlindSearch(store, root, at, ch, junk, states, paths);
    var last := states[|paths|];
    AssertsAlong(store, last, at, b, GoneThrough(at, paths));
    AlongAt(store, last, at, b, true);
    DirOnTheWay(last, [], at);
    GatherValid(env, last, []);
    GatheredDir(env, last);
    PartsAreWhole(env, after, Gather(env, last, []), []);
    var t := LostIsSkipped(env, store, after, last, at, b, []);
    HasJoin(t, at, p);
    OpenedFinds(after, t, at + p);
  }

  lemma GatheredDir(env: Env, e: Entry)
    requires e.Dir? && ValidEnv(env) && AllValid(Gather(env, e, []))
    ensures Dumped(env, Gather(env, e, []), []).Dir?
  {
  }
}
