/** Changes to a tree in memory, and the commit that makes the object store
    hold it. */
module OglCommit {
  import opened Wire
  import opened OglTree
  import opened OglCodec
  import opened OglRepo
  import opened OglMerge

  /** The world outside: the hash function, the files' hashes, the objects made
      for symbolic links, and the permissions that lstat reports. */
  datatype Env = Env(hash: bytes -> nat, file: Path -> nat, link: Path -> bytes, perms: Path -> Perms)

  /** Hashes are 64-bit and permissions 9-bit. */
  ghost predicate ValidEnv(env: Env) {
    && (forall b :: env.hash(b) < Pow256(8))
    && (forall p :: env.file(p) < Pow256(8))
    && (forall p :: env.perms(p).mode < 512)
  }

  predicate IsModifiedDir(e: Entry) {
    e.Dir? && e.info.modified
  }

  // ------------------------------------------------------------------
  // What commit makes of a tree.

  function GatherLeaf(env: Env, l: LeafState, p: Path): LeafState {
    match l
    case File(_, _, false) => File(env.file(p), env.perms(p), true)
    case Symlink(_, _, true) => Symlink(env.hash(env.link(p)), env.perms(p), false)
    case _ => l
  }

  /** The first loop: every file and link below modified directories gets its
      hash. */
  function Gather(env: Env, e: Entry, p: Path): Entry
    decreases e
  {
    match e
    case Leaf(l) => Leaf(GatherLeaf(env, l, p))
    case Dir(d, entries) =>
      if !d.modified then e else Dir(d, map n | n in entries :: Gather(env, entries[n], p + [n]))
  }

  function ItemOf(e: Entry): Item {
    match e
    case Dir(d, _) => Item(ENT_DIR, d.hash, d.perms)
    case Leaf(File(hash, perms, _)) => Item(ENT_FILE, hash, perms)
    case Leaf(Symlink(hash, perms, _)) => Item(ENT_SYMLINK, hash, perms)
    case Leaf(Local) => Item(ENT_LOCAL, 0, NO_PERMS)
    case Leaf(Nonexistent) => Item(ENT_NONEXISTENT, 0, NO_PERMS)
    case Leaf(Removed) => Item(ENT_NONEXISTENT, 0, NO_PERMS)
  }

  /** The rows of a directory's object: names marked removed have none. */
  function ItemsOf(entries: map<Name, Entry>): map<Name, Item> {
    map n | n in entries && !IsPlaceholder(entries[n]) :: ItemOf(entries[n])
  }

  predicate ValidFields(e: Entry) {
    match e
    case Dir(d, _) => d.hash < Pow256(8) && d.perms.mode < 512
    case Leaf(File(hash, perms, _)) => hash < Pow256(8) && perms.mode < 512
    case Leaf(Symlink(hash, perms, _)) => hash < Pow256(8) && perms.mode < 512
    case _ => true
  }

  ghost predicate AllValid(e: Entry) {
    ValidFields(e) && (e.Dir? ==> forall n :: n in e.entries ==> AllValid(e.entries[n]))
  }

  lemma ItemsValid(entries: map<Name, Entry>)
    requires forall n :: n in entries ==> ValidFields(entries[n])
    ensures ValidItems(ItemsOf(entries))
  {
    hide Pow256;
    assert Pow256(8) > 0;
  }

  ghost predicate ChildrenValid(entries: map<Name, Entry>) {
    forall n :: n in entries ==> ValidFields(entries[n])
  }

  ghost function ObjectOf(entries: map<Name, Entry>): bytes
    requires ChildrenValid(entries)
  {
    ItemsValid(entries);
    EncodeDir(ItemsOf(entries))
  }

  /** dump's effect on the entry itself. */
  ghost function DumpedState(env: Env, entries: map<Name, Entry>, p: Path): DirState
    requires ChildrenValid(entries)
  {
    DirState(env.hash(ObjectOf(entries)), env.perms(p), false, true)
  }

  /** The second loop: modified directories are dumped, children first. */
  ghost function Dumped(env: Env, e: Entry, p: Path): (r: Entry)
    requires ValidEnv(env) && AllValid(e)
    ensures ValidFields(r)
    ensures e.Dir? ==> r.Dir? && r.entries.Keys == e.entries.Keys
    decreases e
  {
    if !IsModifiedDir(e) then e
    else
      var entries := map n | n in e.entries :: Dumped(env, e.entries[n], p + [n]);
      Dir(DumpedState(env, entries, p), entries)
  }

  ghost function DumpedChildren(env: Env, e: Entry, p: Path): (m: map<Name, Entry>)
    requires ValidEnv(env) && AllValid(e) && e.Dir?
    ensures ChildrenValid(m)
  {
    map n | n in e.entries :: Dumped(env, e.entries[n], p + [n])
  }

  lemma {:induction false} GatherValid(env: Env, e: Entry, p: Path)
    requires ValidEnv(env) && AllValid(e)
    ensures AllValid(Gather(env, e, p))
  {
    if IsModifiedDir(e) {
      forall n | n in e.entries ensures AllValid(Gather(env, e.entries[n], p + [n])) {
        GatherValid(env, e.entries[n], p + [n]);
      }
    }
  }

  // ------------------------------------------------------------------
  // Trees that can be committed.

  /** Modified directories are loaded; an unmodified one, with all below it, is
      what the store has under its hash. */
  ghost predicate Ready(store: Store, e: Entry) {
    e.Dir? ==>
      if e.info.modified then e.info.loaded && forall n :: n in e.entries ==> Ready(store, e.entries[n])
      else Stands(store, e)
  }

  ghost predicate Stands(store: Store, e: Entry) {
    exists t :: Shows(e, t) && Reloads(store, t)
  }

  /** Below an unmodified directory nothing is modified. */
  lemma {:induction false} NothingModifiedBelow(e: Entry, t: Stored, p: Path)
    requires Shows(e, t) && Has(e, p)
    ensures !IsModifiedDir(At(e, p))
  {
    if p != [] {
      var n := p[0];
      if n in t.entries {
        NothingModifiedBelow(e.entries[n], t.entries[n], p[1..]);
      }
    }
  }

  lemma {:induction false} ReadyAt(store: Store, e: Entry, p: Path)
    requires Ready(store, e) && Has(e, p)
    ensures Ready(store, At(e, p))
    ensures IsModifiedDir(At(e, p)) ==> IsModifiedDir(e)
  {
    if p != [] {
      StandingChild(store, e, p[0]);
      ReadyAt(store, e.entries[p[0]], p[1..]);
      if IsModifiedDir(At(e, p)) && !IsModifiedDir(e) {
        var t :| Shows(e, t) && Reloads(store, t);
        NothingModifiedBelow(e, t, p);
      }
    }
  }

  /** A child of a committable directory is committable, modified or not. */
  lemma StandingChild(store: Store, e: Entry, n: Name)
    requires Ready(store, e) && e.Dir? && n in e.entries
    ensures Ready(store, e.entries[n])
  {
    hide DecodeDir;
    if !e.info.modified && e.entries[n].Dir? {
      var t :| Shows(e, t) && Reloads(store, t);
      assert Shows(e.entries[n], t.entries[n]) && Reloads(store, t.entries[n]);
      assert Stands(store, e.entries[n]);
    }
  }

  /** What commit asserts: every modified directory it reaches is loaded. */
  ghost predicate CommitAsserts(e: Entry) {
    IsModifiedDir(e) ==> e.info.loaded && forall n :: n in e.entries ==> CommitAsserts(e.entries[n])
  }

  /** A directory that commit dumps: it and all above it are modified. */
  predicate Live(e: Entry, p: Path) {
    IsModifiedDir(e) && (p != [] ==> p[0] in e.entries && Live(e.entries[p[0]], p[1..]))
  }

  lemma {:induction false} LiveAt(e: Entry, p: Path)
    requires Live(e, p)
    ensures HasDir(e, p) && IsModifiedDir(At(e, p))
    ensures CommitAsserts(e) ==> At(e, p).info.loaded
  {
    if p != [] {
      LiveAt(e.entries[p[0]], p[1..]);
    }
  }

  lemma {:induction false} LiveAbove(e: Entry, p: Path, y: Path)
    requires Live(e, y) && p <= y
    ensures Live(e, p)
  {
    if p != [] {
      LiveAbove(e.entries[p[0]], p[1..], y[1..]);
    }
  }

  lemma {:induction false} LiveChild(e: Entry, p: Path, n: Name)
    requires Live(e, p) && Has(e, p + [n]) && IsModifiedDir(At(e, p + [n]))
    ensures Live(e, p + [n])
  {
    HasChild(e, p, n);
    if p == [] {
      var one := [n];
      assert p + [n] == one && one[1..] == [] && At(e, p) == e;
      assert IsModifiedDir(e.entries[n]) && Live(e.entries[n], one[1..]);
    } else {
      assert (p + [n])[0] == p[0] && (p + [n])[1..] == p[1..] + [n];
      LiveChild(e.entries[p[0]], p[1..], n);
    }
  }

  /** An entry that commit looks at: the root, and what is in a directory that
      it dumps. */
  predicate Met(e: Entry, p: Path) {
    p == [] || Live(e, p[..|p| - 1])
  }

  lemma MetLive(e: Entry, p: Path)
    requires Met(e, p) && Has(e, p) && IsModifiedDir(At(e, p))
    ensures Live(e, p)
  {
    if p != [] {
      assert p == p[..|p| - 1] + [p[|p| - 1]];
      LiveChild(e, p[..|p| - 1], p[|p| - 1]);
    }
  }

  // ------------------------------------------------------------------
  // Changes.

  datatype Change = AddFile(name: Name) | AddDir(name: Name) | AddSymlink(name: Name) | Remove(name: Name)
    | MarkLocal(name: Name) | MarkNonexistent(name: Name) | MarkRemoved(name: Name)
    | EditFile(name: Name) | EditLink(name: Name)

  /** The entry a change puts under its name; a hash not yet computed is junk. */
  function NewEntry(ch: Change, junk: nat): Entry {
    match ch
    case AddFile(_) => Leaf(File(junk, NO_PERMS, false))
    case AddDir(_) => Dir(DirState(junk, NO_PERMS, true, true), map[])
    case AddSymlink(_) => Leaf(Symlink(junk, NO_PERMS, true))
    case MarkLocal(_) => Leaf(Local)
    case MarkNonexistent(_) => Leaf(Nonexistent)
    case _ => Leaf(Removed)
  }

  predicate IsFile(e: Entry) {
    e.Leaf? && e.leaf.File?
  }

  predicate IsLink(e: Entry) {
    e.Leaf? && e.leaf.Symlink?
  }

  /** Adding wants the name free, removing wants it taken, and an edit is marked
      on the file or link itself. */
  predicate Applies(ch: Change, entries: map<Name, Entry>) {
    match ch
    case Remove(name) => name in entries
    case MarkRemoved(_) => true
    case EditFile(name) => name in entries && IsFile(entries[name])
    case EditLink(name) => name in entries && IsLink(entries[name])
    case _ => ch.name !in entries
  }

  function Changed(ch: Change, entries: map<Name, Entry>, junk: nat): map<Name, Entry>
    requires Applies(ch, entries)
  {
    match ch
    case Remove(name) => entries - {name}
    case EditFile(name) => entries[name := Leaf(entries[name].leaf.(valid := false))]
    case EditLink(name) => entries[name := Leaf(entries[name].leaf.(changed := true))]
    case _ => entries[ch.name := NewEntry(ch, junk)]
  }

  function AfterChange(root: Entry, at: Path, ch: Change, junk: nat): Entry
    requires HasDir(root, at)
  {
    var entries := At(root, at).entries;
    if Applies(ch, entries) then WithEntries(root, at, Changed(ch, entries, junk)) else root
  }

  /** ogl_dir::add_file, add_dir, add_symlink, remove and the mark operations,
      and mark_modified on a file or a link. */
  method Apply(repo: Repo, at: Path, ch: Change, junk: nat) returns (ok: bool)
    requires HasDir(repo.root, at)
    modifies repo`root
    ensures repo.root == AfterChange(old(repo.root), at, ch, junk)
    ensures ok == Applies(ch, At(old(repo.root), at).entries)
  {
    var entries: map<Name, Entry> := At(repo.root, at).entries;
    match ch {
      case Remove(name) =>
        if name !in entries {
          return false;
        }
        var gone: set<Name> := {name};
        entries := entries - gone;
      case MarkRemoved(name) =>
        entries := entries[name := Leaf(Removed)];
      case EditFile(name) =>
        if name !in entries || !IsFile(entries[name]) {
          return false;
        }
        entries := entries[name := Leaf(entries[name].leaf.(valid := false))];
      case EditLink(name) =>
        if name !in entries || !IsLink(entries[name]) {
          return false;
        }
        entries := entries[name := Leaf(entries[name].leaf.(changed := true))];
      case _ =>
        if ch.name in entries {
          return false;
        }
        entries := entries[ch.name := NewEntry(ch, junk)];
    }
    repo.root := WithEntries(repo.root, at, entries);
    ok := true;
  }

  /** Marking up to the root keeps a committable tree committable. */
  lemma {:induction false} WithEntriesReady(store: Store, root: Entry, at: Path, entries: map<Name, Entry>)
    requires Ready(store, root) && HasDir(root, at) && At(root, at).info.loaded
    requires forall n :: n in entries ==> Ready(store, entries[n])
    ensures Ready(store, WithEntries(root, at, entries))
    ensures IsModifiedDir(WithEntries(root, at, entries))
  {
    hide DecodeDir;
    if at == [] {
    } else {
      var n := at[0];
      LoadedOnTheWay(store, root, n);
      StandingChild(store, root, n);
      WithEntriesReady(store, root.entries[n], at[1..], entries);
      var r := WithEntries(root, at, entries);
      WithEntriesStep(root, at, entries);
      forall m | m in r.entries ensures Ready(store, r.entries[m]) {
        if m != n {
          StandingChild(store, root, m);
        }
      }
    }
  }

  lemma LoadedOnTheWay(store: Store, e: Entry, n: Name)
    requires Ready(store, e) && e.Dir? && n in e.entries
    ensures e.info.loaded
  {
    hide DecodeDir, Reloads;
    if !e.info.modified {
      var t :| Shows(e, t) && Reloads(store, t);
    }
  }

  lemma ChangeReady(store: Store, root: Entry, at: Path, ch: Change, junk: nat)
    requires Ready(store, root) && HasDir(root, at) && At(root, at).info.loaded
    ensures Ready(store, AfterChange(root, at, ch, junk))
  {
    hide Stands, WithEntries;
    var entries := At(root, at).entries;
    ReadyAt(store, root, at);
    if Applies(ch, entries) {
      forall n | n in Changed(ch, entries, junk) ensures Ready(store, Changed(ch, entries, junk)[n]) {
        if n in entries && n != ch.name {
          StandingChild(store, At(root, at), n);
        }
      }
      WithEntriesReady(store, root, at, Changed(ch, entries, junk));
    }
  }

  /** Any sequence of changes to loaded directories. */
  ghost predicate Changes(states: seq<Entry>, ats: seq<Path>, chs: seq<Change>, junk: nat) {
    && |states| == |ats| + 1 == |chs| + 1
    && forall k :: 0 <= k < |ats| ==>
         HasDir(states[k], ats[k]) && At(states[k], ats[k]).info.loaded
         && states[k + 1] == AfterChange(states[k], ats[k], chs[k], junk)
  }

  lemma {:induction false} ChangesReady(store: Store, states: seq<Entry>, ats: seq<Path>, chs: seq<Change>, junk: nat)
    requires Changes(states, ats, chs, junk) && Ready(store, states[0])
    ensures Ready(store, states[|ats|])
    decreases |ats|
  {
    hide Ready, AfterChange;
    if ats != [] {
      var k := |ats| - 1;
      ChangesReady(store, states[..|ats|], ats[..k], chs[..k], junk);
      ChangeReady(store, states[k], ats[k], chs[k], junk);
    }
  }

  lemma {:induction false} ReadyAsserts(store: Store, e: Entry)
    requires Ready(store, e)
    ensures CommitAsserts(e)
  {
    if IsModifiedDir(e) {
      forall n | n in e.entries ensures CommitAsserts(e.entries[n]) {
        ReadyAsserts(store, e.entries[n]);
      }
    }
  }

  // ------------------------------------------------------------------
  // Objects and the store.

  /** The object a modified directory is dumped as. */
  ghost function DirObject(env: Env, e: Entry, p: Path): bytes
    requires ValidEnv(env) && AllValid(e) && e.Dir?
  {
    ObjectOf(DumpedChildren(env, e, p))
  }

  /** The objects of all modified directories of a gathered tree. */
  ghost function DirObjects(env: Env, e: Entry, p: Path): set<bytes>
    requires ValidEnv(env) && AllValid(e)
    decreases e
  {
    if !IsModifiedDir(e) then {}
    else {DirObject(env, e, p)} + set n, o | n in e.entries && o in DirObjects(env, e.entries[n], p + [n]) :: o
  }

  function LinkObjects(env: Env, e: Entry, p: Path): set<bytes>
    decreases e
  {
    match e
    case Leaf(Symlink(_, _, true)) => {env.link(p)}
    case Leaf(_) => {}
    case Dir(d, entries) =>
      if !d.modified then {} else set n, o | n in entries && o in LinkObjects(env, entries[n], p + [n]) :: o
  }

  /** ogl_repo::store_obj. */
  function StoreObject(env: Env, store: Store, o: bytes): Store {
    var h := env.hash(o);
    if h in store then store else store[h := StoredPart(o)]
  }

  /** No object of this commit has the hash of another one or of a different
      stored file: the assumption a content-addressed store lives by. */
  ghost predicate NoCollision(env: Env, store: Store, objects: set<bytes>) {
    && (forall o :: o in objects && env.hash(o) in store ==> store[env.hash(o)] == StoredPart(o))
    && (forall o, u :: o in objects && u in objects && env.hash(o) == env.hash(u) ==> o == u)
  }

  /** The store part-way through a commit. */
  ghost predicate Holds(env: Env, before: Store, after: Store, objects: set<bytes>, done: set<bytes>) {
    && done <= objects
    && (forall h :: h in before ==> h in after && after[h] == before[h])
    && (forall h :: h in after ==> h in before || exists o :: o in objects && env.hash(o) == h && after[h] == StoredPart(o))
    && (forall o :: o in done ==> env.hash(o) in after && after[env.hash(o)] == StoredPart(o))
  }

  lemma StoreOne(env: Env, before: Store, after: Store, objects: set<bytes>, done: set<bytes>, o: bytes)
    requires NoCollision(env, before, objects) && Holds(env, before, after, objects, done) && o in objects
    ensures Holds(env, before, StoreObject(env, after, o), objects, done + {o})
  {
    hide StoredPart;
    var h, next := env.hash(o), StoreObject(env, after, o);
    if h in after && h !in before {
      var u :| u in objects && env.hash(u) == h && after[h] == StoredPart(u);
    }
    forall k | k in next ensures k in before || exists u :: u in objects && env.hash(u) == k && next[k] == StoredPart(u) {
    }
  }

  // ------------------------------------------------------------------
  // What the final store gives back.

  /** Every leaf below modified directories has its hash. */
  ghost predicate Gathered(store: Store, e: Entry) {
    match e
    case Leaf(l) => !(l.File? && !l.valid) && !(l.Symlink? && l.changed)
    case Dir(d, entries) =>
      if d.modified then d.loaded && forall n :: n in entries ==> Gathered(store, entries[n])
      else Stands(store, e)
  }

  lemma {:induction false} GatherGathers(env: Env, store: Store, e: Entry, p: Path)
    requires Ready(store, e)
    ensures Gathered(store, Gather(env, e, p))
  {
    if IsModifiedDir(e) {
      forall n | n in e.entries ensures Gathered(store, Gather(env, e.entries[n], p + [n])) {
        GatherGathers(env, store, e.entries[n], p + [n]);
      }
    }
  }

  ghost function TreeOf(store: Store, e: Entry): Stored
    requires Stands(store, e)
    ensures Shows(e, TreeOf(store, e)) && Reloads(store, TreeOf(store, e))
  {
    var t :| Shows(e, t) && Reloads(store, t);
    t
  }

  /** The stored leaf that a leaf with its hash is. */
  function StoredOf(l: LeafState): StoredLeaf {
    match l
    case File(hash, _, _) => SFile(hash)
    case Symlink(hash, _, _) => SSymlink(hash)
    case Local => SLocal
    case _ => SNonexistent
  }

  ghost predicate AllStored(env: Env, store: Store, objects: set<bytes>) {
    forall o :: o in objects ==> |o| < TWO16 && env.hash(o) in store && store[env.hash(o)] == o
  }

  /** Children first: once every object is stored, each dumped entry is what
      the store has under its hash. */
  lemma {:induction false} DumpedIsCommitted(env: Env, before: Store, store: Store, e: Entry, p: Path)
    requires ValidEnv(env) && AllValid(e) && Gathered(before, e) && !IsPlaceholder(e)
    requires Grown(before, store)
    requires AllStored(env, store, DirObjects(env, e, p))
    ensures Stands(store, Dumped(env, e, p))
  {
    hide DecodeDir, EncodeDir;
    if e.Leaf? {
      var t: Stored := Leaf(StoredOf(e.leaf));
      assert Shows(e, t) && Reloads(store, t);
    } else if !e.info.modified {
      var t :| Shows(e, t) && Reloads(before, t);
      ReloadsGrows(before, store, t);
    } else {
      var kids := DumpedChildren(env, e, p);
      forall n | n in kids && !IsPlaceholder(kids[n]) ensures Stands(store, kids[n]) {
        DumpedKind(env, e.entries[n], p + [n]);
        assert forall o :: o in DirObjects(env, e.entries[n], p + [n]) ==> o in DirObjects(env, e, p);
        DumpedIsCommitted(env, before, store, e.entries[n], p + [n]);
      }
      DirIsCommitted(env, store, kids, p, DirObject(env, e, p));
    }
  }

  lemma DumpedKind(env: Env, e: Entry, p: Path)
    requires ValidEnv(env) && AllValid(e)
    ensures IsPlaceholder(Dumped(env, e, p)) == IsPlaceholder(e)
  {
  }

  /** One dumped directory over children the store already has. */
  lemma DirIsCommitted(env: Env, store: Store, kids: map<Name, Entry>, p: Path, o: bytes)
    requires ChildrenValid(kids) && o == ObjectOf(kids) && |o| < TWO16
    requires env.hash(o) in store && store[env.hash(o)] == o
    requires forall n :: n in kids && !IsPlaceholder(kids[n]) ==> Stands(store, kids[n])
    ensures Stands(store, Dir(DumpedState(env, kids, p), kids))
  {
    hide DecodeDir, EncodeDir, Reloads;
    var entries := map n | n in kids && !IsPlaceholder(kids[n]) :: TreeOf(store, kids[n]);
    forall n | n in entries ensures RefOf(entries[n]) == Ref(ItemOf(kids[n]).kind, ItemOf(kids[n]).hash) {
      ShownRef(kids[n], entries[n]);
    }
    ObjectReloads(env, store, kids, o, entries);
    var d, t: Stored := Dir(DumpedState(env, kids, p), kids), Dir(env.hash(o), entries);
    assert Shows(d, t);
  }

  /** Reading a stored object gives trees for exactly the names dumped. */
  lemma ObjectReloads(env: Env, store: Store, kids: map<Name, Entry>, o: bytes, entries: map<Name, Stored>)
    requires ChildrenValid(kids) && o == ObjectOf(kids) && |o| < TWO16
    requires env.hash(o) in store && store[env.hash(o)] == o
    requires forall n :: n in entries <==> n in kids && !IsPlaceholder(kids[n])
    requires forall n :: n in entries ==> RefOf(entries[n]) == Ref(ItemOf(kids[n]).kind, ItemOf(kids[n]).hash)
    requires forall n :: n in entries ==> Reloads(store, entries[n])
    ensures Reloads(store, Dir(env.hash(o), entries))
  {
    hide DecodeDir, EncodeDir, Reloads, RefOf, ItemOf;
    var t: Stored := Dir(env.hash(o), entries);
    ItemsValid(kids);
    LoadDump(ItemsOf(kids));
    assert RefsOf(t) == Refs(ItemsOf(kids));
    ReloadsDir(store, t);
  }

  /** A stored tree is what an entry's row leads to. */
  ghost predicate Recorded(store: Store, e: Entry, t: Stored) {
    Reloads(store, t) && RefOf(t) == Ref(ItemOf(e).kind, ItemOf(e).hash)
  }

  lemma ChildStored(env: Env, store: Store, g: Entry, q: Path, n: Name)
    requires ValidEnv(env) && AllValid(g) && IsModifiedDir(g) && n in g.entries
    requires AllStored(env, store, DirObjects(env, g, q))
    ensures AllValid(g.entries[n]) && AllStored(env, store, DirObjects(env, g.entries[n], q + [n]))
  {
    assert forall o :: o in DirObjects(env, g.entries[n], q + [n]) ==> o in DirObjects(env, g, q);
  }

  lemma ReloadsDir(store: Store, t: Stored)
    requires t.Dir? && t.info in store && DecodeDir(store[t.info]) == Loaded(RefsOf(t))
    requires forall n :: n in t.entries ==> Reloads(store, t.entries[n])
    ensures Reloads(store, t)
  {
  }

  lemma ShownRef(e: Entry, t: Stored)
    requires Shows(e, t) && !IsPlaceholder(e)
    ensures RefOf(t) == Ref(ItemOf(e).kind, ItemOf(e).hash)
  {
  }

  // ------------------------------------------------------------------
  // The first loop.

  ghost function GatherAt(env: Env, root: Entry): Path -> Entry {
    p => if Has(root, p) then Gather(env, At(root, p), p) else root
  }

  /** What is still on the stack has not been touched. */
  ghost predicate Untouched(root0: Entry, root: Entry, stack: seq<Path>) {
    forall i :: 0 <= i < |stack| ==>
      Met(root0, stack[i]) && Has(root0, stack[i]) && Has(root, stack[i]) && At(root, stack[i]) == At(root0, stack[i])
  }

  /** Every directory to be dumped has been listed or lies under the stack. */
  ghost predicate Reached(root0: Entry, dirs: seq<Path>, stack: seq<Path>) {
    forall x :: Live(root0, x) ==> x in dirs || UnderStack(stack, x)
  }

  ghost predicate UnderStack(stack: seq<Path>, x: Path) {
    exists i :: 0 <= i < |stack| && stack[i] <= x
  }

  /** The directories to be dumped, none before one above it. */
  ghost predicate DumpOrder(root: Entry, dirs: seq<Path>) {
    && (forall i, j :: 0 <= i < j < |dirs| ==> !(dirs[j] <= dirs[i]))
    && (forall x :: x in dirs <==> Live(root, x))
  }

  ghost predicate Listed(root0: Entry, dirs: seq<Path>, done: set<Path>) {
    && (forall i, j :: 0 <= i < j < |dirs| ==> !(dirs[j] <= dirs[i]))
    && (forall x :: x in dirs <==> x in done)
    && (forall x :: x in dirs ==> Live(root0, x))
  }

  lemma DropTop(stack: seq<Path>, done: set<Path>, p: Path)
    requires Apart(stack + [p]) && Ahead(stack + [p], done)
    ensures Apart(stack) && Ahead(stack, done)
  {
    assert forall i :: 0 <= i < |stack| ==> (stack + [p])[i] == stack[i];
  }

  lemma UntouchedTop(root0: Entry, root: Entry, stack: seq<Path>, p: Path)
    requires Untouched(root0, root, stack + [p])
    ensures Has(root0, p) && Has(root, p) && At(root, p) == At(root0, p) && Met(root0, p)
    ensures Untouched(root0, root, stack)
  {
    assert (stack + [p])[|stack|] == p;
    assert forall i :: 0 <= i < |stack| ==> (stack + [p])[i] == stack[i];
  }

  /** A leaf, or a directory that commit skips. */
  lemma GatherOther(env: Env, root0: Entry, root: Entry, stack: seq<Path>, done: set<Path>,
                    dirs: seq<Path>, p: Path)
    requires Apart(stack + [p]) && Ahead(stack + [p], done)
    requires Untouched(root0, root, stack + [p]) && Reached(root0, dirs, stack + [p])
    requires Has(root0, p) && Has(root, p) && !IsModifiedDir(At(root0, p))
    ensures var root' := PutAt(root, p, Gather(env, At(root0, p), p));
      && Apart(stack) && Ahead(stack, done)
      && Untouched(root0, root', stack) && Reached(root0, dirs, stack)
      && Finish(root', stack, GatherAt(env, root0)) == Finish(root, stack + [p], GatherAt(env, root0))
  {
    hide Apart, Ahead, Gather, Finish, Live, Met, Has, At, PutAt;
    var x := Gather(env, At(root0, p), p);
    DropTop(stack, done, p);
    UntouchedTop(root0, root, stack, p);
    forall i | 0 <= i < |stack|
      ensures Met(root0, stack[i])
      ensures Has(PutAt(root, p, x), stack[i]) && At(PutAt(root, p, x), stack[i]) == At(root0, stack[i])
    {
      StackApart(stack, p, i);
      AtPutElsewhere(root, p, x, stack[i]);
    }
    forall y | Live(root0, y) ensures y in dirs || UnderStack(stack, y) {
      if UnderStack(stack + [p], y) && !UnderStack(stack, y) {
        TopOnly(stack, p, y);
        LiveAbove(root0, p, y);
        LiveAt(root0, p);
      }
    }
    FinishTop(root, stack, p, GatherAt(env, root0));
  }

  lemma TopOnly(stack: seq<Path>, p: Path, y: Path)
    requires UnderStack(stack + [p], y) && !UnderStack(stack, y)
    ensures p <= y
  {
    var all := stack + [p];
    forall k | 0 <= k < |stack| ensures !(all[k] <= y) {
      assert all[k] == stack[k];
    }
    var i :| 0 <= i < |all| && all[i] <= y;
    assert all[i] == p;
  }

  /** A modified directory: it is listed and its children go on the stack. */
  lemma GatherDir(env: Env, root0: Entry, root: Entry, stack: seq<Path>, done: set<Path>, dirs: seq<Path>, p: Path,
                  names: seq<Name>)
    requires Apart(stack + [p]) && Ahead(stack + [p], done) && Distinct(names)
    requires Untouched(root0, root, stack + [p]) && Reached(root0, dirs, stack + [p]) && Listed(root0, dirs, done)
    requires Has(root0, p) && Live(root0, p) && HasDir(root0, p) && forall n :: n in names <==> n in At(root0, p).entries
    ensures var work := stack + Below(p, names);
      && p !in done && Apart(work) && Ahead(work, done + {p})
      && Untouched(root0, root, work) && Reached(root0, dirs + [p], work) && Listed(root0, dirs + [p], done + {p})
      && Finish(root, work, GatherAt(env, root0)) == Finish(root, stack + [p], GatherAt(env, root0))
  {
    hide Apart, Finish, Has, At, Ahead, Live;
    var work := stack + Below(p, names);
    LiveAt(root0, p);
    UntouchedTop(root0, root, stack, p);
    StackStep(stack, done, p, names);
    forall i | 0 <= i < |work|
      ensures Met(root0, work[i]) && Has(root0, work[i]) && Has(root, work[i]) && At(root, work[i]) == At(root0, work[i])
    {
      if i < |stack| {
        assert work[i] == stack[i];
      } else {
        var n := names[i - |stack|];
        assert work[i] == p + [n] && n in names && work[i][..|work[i]| - 1] == p;
        HasChild(root0, p, n);
        HasChild(root, p, n);
      }
    }
    ReachedDir(root0, stack, dirs, p, names);
    ListedDir(root0, stack, done, dirs, p);
    GatherDiffers(env, root0, p, names);
    FinishChildren(root, stack, p, names, GatherAt(env, root0));
  }

  lemma ReachedDir(root0: Entry, stack: seq<Path>, dirs: seq<Path>, p: Path, names: seq<Name>)
    requires Reached(root0, dirs, stack + [p]) && HasDir(root0, p)
    requires forall n :: n in names <==> n in At(root0, p).entries
    ensures Reached(root0, dirs + [p], stack + Below(p, names))
  {
    hide Has, At, Live;
    var work := stack + Below(p, names);
    forall y | Live(root0, y) ensures y in dirs + [p] || UnderStack(work, y) {
      LiveAt(root0, y);
      if y !in dirs && y != p {
        assert UnderStack(stack + [p], y);
        if UnderStack(stack, y) {
          var i :| 0 <= i < |stack| && stack[i] <= y;
          assert work[i] == stack[i];
        } else {
          TopOnly(stack, p, y);
          var n := y[|p|];
          FirstStep(root0, p, y);
          var k :| 0 <= k < |names| && names[k] == n;
          assert work[|stack| + k] == p + [n] <= y;
        }
      }
    }
  }

  lemma FirstStep(root: Entry, p: Path, y: Path)
    requires p < y && Has(root, y) && HasDir(root, p)
    ensures y[|p|] in At(root, p).entries && p + [y[|p|]] <= y
  {
    hide Has, At;
    var n := y[|p|];
    var r := y[|p| + 1..];
    assert y == (p + [n]) + r;
    HasJoin(root, p + [n], r);
    HasChild(root, p, n);
  }

  lemma ListedDir(root0: Entry, stack: seq<Path>, done: set<Path>, dirs: seq<Path>, p: Path)
    requires Ahead(stack + [p], done) && Listed(root0, dirs, done) && Live(root0, p)
    ensures Listed(root0, dirs + [p], done + {p})
  {
    hide Live;
    var all := dirs + [p];
    assert (stack + [p])[|stack|] == p;
    forall i, j | 0 <= i < j < |all| ensures !(all[j] <= all[i]) {
      if j == |dirs| {
        assert all[i] == dirs[i] && dirs[i] in dirs;
      }
    }
  }

  lemma GatherDiffers(env: Env, root0: Entry, p: Path, names: seq<Name>)
    requires Has(root0, p) && IsModifiedDir(At(root0, p)) && forall n :: n in names <==> n in At(root0, p).entries
    ensures DiffersAt(At(root0, p), p, names, GatherAt(env, root0))
  {
    hide Has, At;
    forall k | 0 <= k < |names|
      ensures names[k] in At(root0, p).entries
              && GatherAt(env, root0)(p).entries[names[k]] == GatherAt(env, root0)(p + [names[k]])
    {
      assert names[k] in names;
      HasChild(root0, p, names[k]);
    }
  }

  lemma GatherStart(env: Env, root: Entry)
    ensures Apart([[]]) && Ahead([[]], {}) && Untouched(root, root, [[]]) && Reached(root, [], [[]]) && Listed(root, [], {})
    ensures Finish(root, [[]], GatherAt(env, root)) == Gather(env, root, [])
  {
    var none, one: seq<Path> := [], [[]];
    FinishTop(root, none, [], GatherAt(env, root));
    assert none + [[]] == one;
    forall x: Path ensures UnderStack(one, x) {
      assert one[0] <= x;
    }
  }

  lemma LinkAt(env: Env, root: Entry, q: Path, p: Path)
    requires Met(root, p) && Has(root, p)
    requires At(root, p).Leaf? && At(root, p).leaf.Symlink? && At(root, p).leaf.changed
    ensures env.link(q + p) in LinkObjects(env, root, q)
    decreases |p|
  {
    if p == [] {
      assert q + p == q;
    } else {
      var n := p[0];
      assert q + p == (q + [n]) + p[1..];
      assert |p| > 1 ==> p[..|p| - 1][1..] == p[1..][..|p| - 2];
      LinkAt(env, root.entries[n], q + [n], p[1..]);
    }
  }

  /** The first loop of commit. */
  method GatherPass(repo: Repo, env: Env, ghost objects: set<bytes>) returns (dirs: seq<Path>, ghost stored: set<bytes>)
    requires ValidEnv(env) && CommitAsserts(repo.root)
    requires NoCollision(env, repo.store, objects) && LinkObjects(env, repo.root, []) <= objects
    modifies repo
    ensures repo.root == Gather(env, old(repo.root), [])
    ensures DumpOrder(old(repo.root), dirs)
    ensures Holds(env, old(repo.store), repo.store, objects, stored)
  {
    hide CommitAsserts, Live, Met, NoCollision, Gather, Apart, Ahead, Untouched, Reached, Listed, Finish, GatherAt, LinkObjects, Holds, Has,
         At, PutAt, ValidEnv;
    ghost var root0, store0 := repo.root, repo.store;
    var todumps: seq<Path> := [[]];
    dirs, stored := [], {};
    ghost var done: set<Path> := {};
    GatherStart(env, root0);
    NothingStored(env, store0, objects);
    while todumps != []
      invariant Apart(todumps) && Ahead(todumps, done) && done <= DirPaths(root0)
      invariant Untouched(root0, repo.root, todumps) && Reached(root0, dirs, todumps) && Listed(root0, dirs, done)
      invariant Finish(repo.root, todumps, GatherAt(env, root0)) == Gather(env, root0, [])
      invariant Holds(env, store0, repo.store, objects, stored)
      decreases DirPaths(root0) - done, |todumps|
    {
      var p := todumps[|todumps| - 1];
      ghost var stack := todumps[..|todumps| - 1];
      assert todumps == stack + [p];
      todumps := todumps[..|todumps| - 1];
      UntouchedTop(root0, repo.root, stack, p);
      var ent := At(repo.root, p);
      if IsModifiedDir(ent) {
        MetLive(root0, p);
        assert ent.info.loaded by { LiveAt(root0, p); }
        var names := Listing(ent.entries.Keys);
        GatherDir(env, root0, repo.root, stack, done, dirs, p, names);
        DirPathsAre(root0, p);
        dirs := dirs + [p];
        todumps := todumps + Below(p, names);
        done := done + {p};
      } else {
        GatherOther(env, root0, repo.root, stack, done, dirs, p);
        GatherSame(env, ent, p);
        if ent.Leaf? {
          if ent.leaf.Symlink? && ent.leaf.changed {
            var o := env.link(p);
            LinkAt(env, root0, [], p);
            assert [] + p == p;
            StoreOne(env, store0, repo.store, objects, stored, o);
            repo.store := StoreObject(env, repo.store, o);
            stored := stored + {o};
          }
          repo.root := PutAt(repo.root, p, Leaf(GatherLeaf(env, ent.leaf, p)));
        } else {
          PutSame(repo.root, p);
        }
      }
    }
    AllListed(root0, dirs, done);
    FinishNone(repo.root, GatherAt(env, root0));
  }

  lemma FinishNone(x: Entry, final: Path -> Entry)
    ensures Finish(x, [], final) == x
  {
  }

  lemma NothingStored(env: Env, store: Store, objects: set<bytes>)
    ensures Holds(env, store, store, objects, {})
  {
  }

  lemma GatherSame(env: Env, e: Entry, p: Path)
    requires !IsModifiedDir(e)
    ensures Gather(env, e, p) == if e.Leaf? then Leaf(GatherLeaf(env, e.leaf, p)) else e
  {
  }

  lemma AllListed(root0: Entry, dirs: seq<Path>, done: set<Path>)
    requires Reached(root0, dirs, []) && Listed(root0, dirs, done)
    ensures DumpOrder(root0, dirs)
  {
    hide Live;
    forall x ensures x in dirs <==> Live(root0, x) {
      assert !UnderStack([], x);
    }
  }

  // ------------------------------------------------------------------
  // The second loop.

  /** The gathered tree has the same directories and flags. */
  lemma {:induction false} GatherShape(env: Env, e: Entry, q: Path, p: Path)
    ensures Live(Gather(env, e, q), p) <==> Live(e, p)
  {
    if p != [] && e.Dir? && e.info.modified && p[0] in e.entries {
      GatherShape(env, e.entries[p[0]], q + [p[0]], p[1..]);
    }
  }

  ghost predicate IsDirKeeping(a: Entry, b: Entry) {
    a.Dir? && b.Dir? && a.info == b.info && a.entries.Keys == b.entries.Keys
  }

  /** The tree when the directories dirs[i..] have been dumped: those are as
      they should be, the other modified ones have kept their fields and names,
      and what is not modified is untouched. */
  ghost predicate DumpedFrom(env: Env, root1: Entry, root: Entry, dirs: seq<Path>, i: nat)
    requires ValidEnv(env) && AllValid(root1) && i <= |dirs|
  {
    && (forall j :: i <= j < |dirs| ==> DumpedAt(env, root1, root, dirs[j]))
    && (forall j :: 0 <= j < i ==> Has(root1, dirs[j]) && Has(root, dirs[j]) && IsDirKeeping(At(root, dirs[j]), At(root1, dirs[j])))
    && (forall x :: Has(root1, x) && !IsModifiedDir(At(root1, x)) ==> Has(root, x) && At(root, x) == At(root1, x))
  }

  ghost predicate DumpedAt(env: Env, root1: Entry, root: Entry, p: Path)
    requires ValidEnv(env) && AllValid(root1)
  {
    Has(root1, p) && Has(root, p) && AllValid(At(root1, p)) && At(root, p) == Dumped(env, At(root1, p), p)
  }

  lemma {:induction false} ValidAt(e: Entry, p: Path)
    requires AllValid(e) && Has(e, p)
    ensures AllValid(At(e, p))
  {
    if p != [] {
      ValidAt(e.entries[p[0]], p[1..]);
    }
  }

  /** Before a directory is dumped its children are as they should be. */
  lemma ChildrenReady(env: Env, root1: Entry, root: Entry, dirs: seq<Path>, i: nat)
    requires ValidEnv(env) && AllValid(root1) && i < |dirs|
    requires DumpOrder(root1, dirs) && DumpedFrom(env, root1, root, dirs, i + 1)
    ensures var p := dirs[i];
      && HasDir(root1, p) && HasDir(root, p) && AllValid(At(root1, p))
      && At(root, p).entries == DumpedChildren(env, At(root1, p), p)
      && IsModifiedDir(At(root1, p))
  {
    hide Has, At, Dumped, AllValid, ValidEnv, ValidFields, Live;
    var p := dirs[i];
    assert p in dirs;
    LiveAt(root1, p);
    ValidAt(root1, p);
    var d, e := At(root, p), At(root1, p);
    assert IsDirKeeping(d, e);
    ChildrenAllValid(e);
    forall n | n in d.entries ensures n in e.entries && d.entries[n] == Dumped(env, e.entries[n], p + [n]) {
      var c := p + [n];
      HasChild(root, p, n);
      HasChild(root1, p, n);
      if IsModifiedDir(At(root1, c)) {
        LiveChild(root1, p, n);
        assert c in dirs;
        var j :| 0 <= j < |dirs| && dirs[j] == c;
        assert p <= c && !(c <= p);
        assert j > i;
        assert DumpedAt(env, root1, root, dirs[j]);
      } else {
        DumpedSame(env, At(root1, c), c);
      }
    }
  }

  lemma ChildrenAllValid(e: Entry)
    requires AllValid(e) && e.Dir?
    ensures forall n :: n in e.entries ==> AllValid(e.entries[n])
  {
  }

  lemma DumpedSame(env: Env, e: Entry, p: Path)
    requires ValidEnv(env) && AllValid(e) && !IsModifiedDir(e)
    ensures Dumped(env, e, p) == e
  {
  }

  lemma DumpedDir(env: Env, e: Entry, p: Path)
    requires ValidEnv(env) && AllValid(e) && IsModifiedDir(e)
    ensures var m := DumpedChildren(env, e, p); Dumped(env, e, p) == Dir(DumpedState(env, m, p), m)
  {
  }

  /** Dumping dirs[i] moves the invariant one down. */
  lemma DumpStep(env: Env, root1: Entry, root: Entry, dirs: seq<Path>, i: nat)
    requires ValidEnv(env) && AllValid(root1) && i < |dirs|
    requires DumpOrder(root1, dirs) && DumpedFrom(env, root1, root, dirs, i + 1)
    requires HasDir(root, dirs[i]) && ChildrenValid(At(root, dirs[i]).entries)
    ensures var p := dirs[i];
      var es := At(root, p).entries;
      DumpedFrom(env, root1, PutAt(root, p, Dir(DumpedState(env, es, p), es)), dirs, i)
  {
    hide Has, At, PutAt, Dumped, AllValid, DumpedState, ValidEnv, Live, DumpedChildren;
    var p := dirs[i];
    assert p in dirs;
    ChildrenReady(env, root1, root, dirs, i);
    var es := At(root, p).entries;
    var x := Dir(DumpedState(env, es, p), es);
    var root' := PutAt(root, p, x);
    DumpedDir(env, At(root1, p), p);
    AtPut(root, p, x);
    forall j | i <= j < |dirs| ensures DumpedAt(env, root1, root', dirs[j]) {
      if j > i {
        var q := dirs[j];
        assert DumpedAt(env, root1, root, q) && !(q <= p);
        if p <= q {
          AtBelow(root, p, x.info, q);
        } else {
          AtPutElsewhere(root, p, x, q);
        }
      }
    }
    forall j | 0 <= j < i
      ensures Has(root1, dirs[j]) && Has(root', dirs[j]) && IsDirKeeping(At(root', dirs[j]), At(root1, dirs[j]))
    {
      var q := dirs[j];
      assert !(p <= q);
      if q <= p {
        AtPutAncestor(root, p, x, q);
      } else {
        AtPutElsewhere(root, p, x, q);
      }
    }
    forall y | Has(root1, y) && !IsModifiedDir(At(root1, y)) ensures Has(root', y) && At(root', y) == At(root1, y) {
      assert y != p;
      if p <= y {
        AtBelow(root, p, x.info, y);
      } else {
        if y <= p { LiveIsModified(root1, y, p); }
        AtPutElsewhere(root, p, x, y);
      }
    }
  }

  lemma LiveIsModified(root: Entry, y: Path, p: Path)
    requires Live(root, p) && y <= p
    ensures Has(root, y) && IsModifiedDir(At(root, y))
  {
    LiveAbove(root, y, p);
    LiveAt(root, y);
  }

  lemma {:induction false} ObjectAt(env: Env, e: Entry, q: Path, p: Path)
    requires ValidEnv(env) && AllValid(e) && Live(e, p)
    ensures Has(e, p) && IsModifiedDir(At(e, p))
    ensures AllValid(At(e, p)) && DirObject(env, At(e, p), q + p) in DirObjects(env, e, q)
    decreases |p|
  {
    hide DirObject;
    LiveAt(e, p);
    ValidAt(e, p);
    if p == [] {
      assert q + p == q;
    } else {
      var n := p[0];
      assert q + p == (q + [n]) + p[1..];
      ObjectAt(env, e.entries[n], q + [n], p[1..]);
    }
  }

  /** ogl_dir::dump on the directory at p: it builds the object, stores it and
      notes the hash. */
  method DumpAt(repo: Repo, env: Env, p: Path)
    requires HasDir(repo.root, p) && ChildrenValid(At(repo.root, p).entries)
    modifies repo
    ensures var es := At(old(repo.root), p).entries;
      && repo.root == PutAt(old(repo.root), p, Dir(DumpedState(env, es, p), es))
      && repo.store == StoreObject(env, old(repo.store), ObjectOf(es))
  {
    hide Pow256, StoreObject;
    var dir := At(repo.root, p);
    var items := ItemsOf(dir.entries);
    ItemsValid(dir.entries);
    var names := Listing(items.Keys);
    assert Elements(names) == items.Keys;
    var obj := BuildObject(names, items);
    var o := obj[..];
    repo.store := StoreObject(env, repo.store, o);
    repo.root := PutAt(repo.root, p, Dir(DirState(env.hash(o), env.perms(p), false, true), dir.entries));
  }

  /** The second loop of commit. */
  method DumpPass(repo: Repo, env: Env, dirs: seq<Path>, ghost before: Store, ghost objects: set<bytes>,
                  ghost stored: set<bytes>) returns (ghost stored': set<bytes>)
    requires ValidEnv(env) && AllValid(repo.root) && DumpOrder(repo.root, dirs)
    requires NoCollision(env, before, objects) && DirObjects(env, repo.root, []) <= objects
    requires Holds(env, before, repo.store, objects, stored)
    modifies repo
    ensures forall j :: 0 <= j < |dirs| ==> DumpedAt(env, old(repo.root), repo.root, dirs[j])
    ensures Holds(env, before, repo.store, objects, stored')
    ensures forall j :: 0 <= j < |dirs| ==> ObjectIn(env, old(repo.root), dirs[j], stored')
  {
    hide Live, NoCollision, Holds, DumpedFrom, AllValid, ValidEnv, Has, At, PutAt, DumpedState, DirObjects,
         StoreObject;
    ghost var root1 := repo.root;
    stored' := stored;
    NothingDumped(env, root1, dirs);
    var i := |dirs|;
    while i > 0
      invariant 0 <= i <= |dirs|
      invariant DumpedFrom(env, root1, repo.root, dirs, i)
      invariant Holds(env, before, repo.store, objects, stored')
      invariant forall j :: i <= j < |dirs| ==> ObjectIn(env, root1, dirs[j], stored')
    {
      i := i - 1;
      var p := dirs[i];
      ChildrenReady(env, root1, repo.root, dirs, i);
      assert p in dirs;
      ObjectAt(env, root1, [], p);
      assert [] + p == p;
      ghost var o := DirObject(env, At(root1, p), p);
      StoreOne(env, before, repo.store, objects, stored', o);
      DumpStep(env, root1, repo.root, dirs, i);
      DumpAt(repo, env, p);
      stored' := stored' + {o};
      assert ObjectIn(env, root1, dirs[i], stored');
    }
    AllDumped(env, root1, repo.root, dirs);
  }

  ghost predicate ObjectIn(env: Env, root: Entry, p: Path, stored: set<bytes>)
    requires ValidEnv(env)
  {
    HasDir(root, p) && AllValid(At(root, p)) && DirObject(env, At(root, p), p) in stored
  }

  lemma NothingDumped(env: Env, root: Entry, dirs: seq<Path>)
    requires ValidEnv(env) && AllValid(root) && DumpOrder(root, dirs)
    ensures DumpedFrom(env, root, root, dirs, |dirs|)
  {
    hide Has, At, Dumped, Live;
    forall j | 0 <= j < |dirs| ensures Has(root, dirs[j]) && IsModifiedDir(At(root, dirs[j])) {
      assert dirs[j] in dirs;
      LiveAt(root, dirs[j]);
    }
  }

  lemma AllDumped(env: Env, root1: Entry, root: Entry, dirs: seq<Path>)
    requires ValidEnv(env) && AllValid(root1) && DumpedFrom(env, root1, root, dirs, 0)
    ensures forall j :: 0 <= j < |dirs| ==> DumpedAt(env, root1, root, dirs[j])
  {
    hide DumpedAt;
  }

  // ------------------------------------------------------------------
  // The whole commit.

  /** Everything a commit of this tree puts into the store. */
  ghost function CommitObjects(env: Env, root: Entry): set<bytes>
    requires ValidEnv(env) && AllValid(root)
  {
    GatherValid(env, root, []);
    LinkObjects(env, root, []) + DirObjects(env, Gather(env, root, []), [])
  }

  ghost predicate Sized(env: Env, root: Entry)
    requires ValidEnv(env) && AllValid(root)
  {
    GatherValid(env, root, []);
    forall o :: o in DirObjects(env, Gather(env, root, []), []) ==> |o| < TWO16
  }

  lemma DumpOrderGathered(env: Env, root: Entry, dirs: seq<Path>)
    requires DumpOrder(root, dirs)
    ensures DumpOrder(Gather(env, root, []), dirs)
  {
    hide Live, Gather;
    forall x ensures Live(Gather(env, root, []), x) <==> Live(root, x) {
      GatherShape(env, root, [], x);
    }
  }

  /** Every directory object is that of a modified directory somewhere. */
  lemma {:induction false} ObjectFrom(env: Env, e: Entry, q: Path, o: bytes) returns (p: Path)
    requires ValidEnv(env) && AllValid(e) && o in DirObjects(env, e, q)
    ensures Live(e, p) && Has(e, p) && IsModifiedDir(At(e, p)) && AllValid(At(e, p)) && o == DirObject(env, At(e, p), q + p)
    decreases e
  {
    hide DirObject;
    if o == DirObject(env, e, q) {
      p := [];
      assert q + p == q;
    } else {
      var n :| n in e.entries && o in DirObjects(env, e.entries[n], q + [n]);
      var r := ObjectFrom(env, e.entries[n], q + [n], o);
      p := [n] + r;
      assert p[1..] == r && q + p == q + [n] + r;
    }
  }

  /** The root object is stored, and so is every other. */
  lemma AllAreStored(env: Env, before: Store, after: Store, root1: Entry, dirs: seq<Path>, objects: set<bytes>, stored: set<bytes>)
    requires ValidEnv(env) && AllValid(root1) && DumpOrder(root1, dirs)
    requires Holds(env, before, after, objects, stored)
    requires forall j :: 0 <= j < |dirs| ==> ObjectIn(env, root1, dirs[j], stored)
    ensures PartsStored(env, after, DirObjects(env, root1, []))
  {
    hide Has, At, DirObjects, DirObject, AllValid, ValidEnv, StoredPart, Live;
    forall o | o in DirObjects(env, root1, []) ensures env.hash(o) in after && after[env.hash(o)] == StoredPart(o) {
      var p := ObjectFrom(env, root1, [], o);
      assert [] + p == p;
      assert p in dirs;
      var j :| 0 <= j < |dirs| && dirs[j] == p;
      assert ObjectIn(env, root1, dirs[j], stored);
    }
  }

  /** As much of each object as store_obj writes. */
  ghost predicate PartsStored(env: Env, store: Store, objects: set<bytes>) {
    forall o :: o in objects ==> env.hash(o) in store && store[env.hash(o)] == StoredPart(o)
  }

  /** Under 64 KiB that is the whole object. */
  lemma PartsAreWhole(env: Env, store: Store, e: Entry, p: Path)
    requires ValidEnv(env) && AllValid(e) && PartsStored(env, store, DirObjects(env, e, p))
    requires forall o :: o in DirObjects(env, e, p) ==> |o| < TWO16
    ensures AllStored(env, store, DirObjects(env, e, p))
  {
    hide Has, At, DirObjects, DirObject, AllValid, ValidEnv, StoredPart, Live;
    forall o | o in DirObjects(env, e, p) ensures StoredPart(o) == o {
      var q := ObjectFrom(env, e, p, o);
      WholeObject(env, At(e, q), p + q);
    }
  }

  lemma WholeObject(env: Env, e: Entry, p: Path)
    requires ValidEnv(env) && AllValid(e) && e.Dir? && |DirObject(env, e, p)| < TWO16
    ensures StoredPart(DirObject(env, e, p)) == DirObject(env, e, p)
  {
    hide EncodeDir, StoredPart;
    var kids := DumpedChildren(env, e, p);
    ItemsValid(kids);
    LoadDump(ItemsOf(kids));
  }

  /** What a commit does to the tree and to the store. */
  ghost predicate CommitsTo(env: Env, root0: Entry, store0: Store, root: Entry, store: Store)
    requires ValidEnv(env) && AllValid(root0)
  {
    GatherValid(env, root0, []);
    var g := Gather(env, root0, []);
    && root == Dumped(env, g, [])
    && Grown(store0, store) && PartsStored(env, store, DirObjects(env, g, []))
  }

  /** Of a tree in order the store then has what memory has if and only if every
      object is under 64 KiB. */
  lemma CommittedStands(env: Env, root0: Entry, store0: Store, root: Entry, store: Store)
    requires ValidEnv(env) && AllValid(root0) && root0.Dir? && Ready(store0, root0)
    requires CommitsTo(env, root0, store0, root, store)
    ensures Stands(store, root) <==> Sized(env, root0)
    ensures root.Dir?
  {
    hide Gathered, AllStored, PartsStored, Dumped, DirObjects, Ready, Shows, Reloads;
    GatherValid(env, root0, []);
    var g := Gather(env, root0, []);
    assert g.Dir?;
    if Sized(env, root0) {
      PartsAreWhole(env, store, g, []);
      GatherGathers(env, store0, root0, []);
      DumpedIsCommitted(env, store0, store, g, []);
    }
    if Stands(store, root) {
      var t :| Shows(root, t) && Reloads(store, t);
      StandingIsSized(env, store, g, [], t);
    }
  }

  /** An object past 64 KiB is not read back, so that no tree is shown. */
  lemma {:induction false} StandingIsSized(env: Env, store: Store, e: Entry, p: Path, t: Stored)
    requires ValidEnv(env) && AllValid(e) && PartsStored(env, store, DirObjects(env, e, p))
    requires Shows(Dumped(env, e, p), t) && Reloads(store, t)
    ensures forall o :: o in DirObjects(env, e, p) ==> |o| < TWO16
    decreases e
  {
    hide DecodeDir, EncodeDir, StoredPart, Pow256;
    if IsModifiedDir(e) {
      var kids := DumpedChildren(env, e, p);
      forall n | n in e.entries ensures forall o :: o in DirObjects(env, e.entries[n], p + [n]) ==> |o| < TWO16 {
        assert forall o :: o in DirObjects(env, e.entries[n], p + [n]) ==> o in DirObjects(env, e, p);
        if e.entries[n].Dir? {
          assert Shows(kids[n], t.entries[n]);
          StandingIsSized(env, store, e.entries[n], p + [n], t.entries[n]);
        }
      }
      assert DirObject(env, e, p) in DirObjects(env, e, p);
      ShownRefs(kids, t);
      ItemsValid(kids);
      ReadBackIff(ItemsOf(kids));
    }
  }

  lemma ShownRefs(kids: map<Name, Entry>, t: Stored)
    requires t.Dir? && (forall n :: n in t.entries ==> n in kids)
    requires forall n :: n in kids ==> (IsPlaceholder(kids[n]) <==> n !in t.entries)
    requires forall n :: n in kids && n in t.entries ==> Shows(kids[n], t.entries[n])
    ensures RefsOf(t) == Refs(ItemsOf(kids))
  {
    forall n | n in t.entries ensures RefOf(t.entries[n]) == Refs(ItemsOf(kids))[n] {
      ShownRef(kids[n], t.entries[n]);
    }
  }

  /** ogl_repo::commit; `rootRef` is what the root reference ends up as, and
      stays as it was when there is nothing to commit. */
  method Commit(repo: Repo, env: Env, oldRef: nat) returns (rootRef: nat)
    requires repo.root.Dir? && CommitAsserts(repo.root)
    requires ValidEnv(env) && AllValid(repo.root)
    requires NoCollision(env, repo.store, CommitObjects(env, repo.root))
    requires !repo.root.info.modified ==> oldRef == repo.root.info.hash
    modifies repo
    ensures CommitsTo(env, old(repo.root), old(repo.store), repo.root, repo.store)
    ensures repo.root.Dir? && rootRef == repo.root.info.hash
    ensures Ready(old(repo.store), old(repo.root)) ==> (Stands(repo.store, repo.root) <==> Sized(env, old(repo.root)))
  {
    hide NoCollision, CommitAsserts, Ready, Stands, AllValid, ValidEnv, LinkObjects, DirObjects, DumpOrder, DumpedFrom, Holds,
         PartsStored, EncodeDir, Sized;
    ghost var root0, store0 := repo.root, repo.store;
    GatherValid(env, root0, []);
    if !repo.root.info.modified {
      UnmodifiedSkips(env, store0, root0);
      if Ready(store0, root0) {
        CommittedStands(env, root0, store0, repo.root, repo.store);
      }
      return oldRef;
    }
    ghost var objects := CommitObjects(env, root0);
    ghost var root1 := Gather(env, root0, []);
    var dirs;
    ghost var stored;
    dirs, stored := GatherPass(repo, env, objects);
    DumpOrderGathered(env, root0, dirs);
    stored := DumpPass(repo, env, dirs, store0, objects, stored);
    AllAreStored(env, store0, repo.store, root1, dirs, objects, stored);
    RootDumped(env, root0, root1, repo.root, dirs);
    StoreKept(env, store0, repo.store, objects, stored);
    if Ready(store0, root0) {
      CommittedStands(env, root0, store0, repo.root, repo.store);
    }
    rootRef := repo.root.info.hash;
  }

  lemma UnmodifiedSkips(env: Env, store: Store, root: Entry)
    requires ValidEnv(env) && AllValid(root) && root.Dir? && !root.info.modified
    ensures Gather(env, root, []) == root && Dumped(env, root, []) == root
    ensures PartsStored(env, store, DirObjects(env, root, []))
  {
  }

  lemma StoreKept(env: Env, before: Store, after: Store, objects: set<bytes>, stored: set<bytes>)
    requires Holds(env, before, after, objects, stored)
    ensures Grown(before, after)
  {
  }

  lemma RootDumped(env: Env, root0: Entry, root1: Entry, root: Entry, dirs: seq<Path>)
    requires ValidEnv(env) && AllValid(root1) && IsModifiedDir(root0) && DumpOrder(root0, dirs)
    requires forall j :: 0 <= j < |dirs| ==> DumpedAt(env, root1, root, dirs[j])
    ensures root == Dumped(env, root1, [])
  {
    hide Dumped, AllValid, ValidEnv;
    assert Live(root0, []);
    assert [] in dirs;
    var j :| 0 <= j < |dirs| && dirs[j] == [];
    assert DumpedAt(env, root1, root, dirs[j]);
  }
}
