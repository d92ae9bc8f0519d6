/** A repository in memory: entries with their flags, loading on demand from
    the object store, and lookup by path string. */
module OglRepo {
  import opened Wire
  import opened OglTree
  import opened OglCodec
  import opened OglPath

  datatype LeafState =
    | Removed
    | Nonexistent
    | Local
    | File(hash: nat, perms: Perms, valid: bool)
    | Symlink(hash: nat, perms: Perms, changed: bool)

  datatype DirState = DirState(hash: nat, perms: Perms, modified: bool, loaded: bool)

  type Entry = Tree<LeafState, DirState>

  /** Object files by hash. */
  type Store = map<nat, bytes>

  const NO_PERMS := Perms(0, false, false)

  /** The entry made for a row of a loaded directory. */
  function FromRef(r: Ref): Entry {
    if r.kind == ENT_NONEXISTENT then Leaf(Nonexistent)
    else if r.kind == ENT_FILE then Leaf(File(r.hash, NO_PERMS, true))
    else if r.kind == ENT_DIR then Dir(DirState(r.hash, NO_PERMS, false, false), map[])
    else if r.kind == ENT_SYMLINK then Leaf(Symlink(r.hash, NO_PERMS, false))
    else Leaf(Local)
  }

  function Children(refs: map<Name, Ref>): map<Name, Entry> {
    map n | n in refs :: FromRef(refs[n])
  }

  predicate Loadable(store: Store, hash: nat) {
    hash in store && DecodeDir(store[hash]).Loaded?
  }

  /** ogl_dir::load. */
  function LoadDir(store: Store, e: Entry): Entry
    requires e.Dir? && Loadable(store, e.info.hash)
  {
    Dir(e.info.(modified := false, loaded := true),
        e.entries + Children(DecodeDir(store[e.info.hash]).refs))
  }

  // ------------------------------------------------------------------
  // What a store holds.

  datatype StoredLeaf = SNonexistent | SLocal | SFile(hash: nat) | SSymlink(hash: nat)

  /** A fully read tree; a directory carries the hash of its object. */
  type Stored = Tree<StoredLeaf, nat>

  function RefOf(t: Stored): Ref {
    match t
    case Dir(hash, _) => Ref(ENT_DIR, hash)
    case Leaf(SNonexistent) => Ref(ENT_NONEXISTENT, 0)
    case Leaf(SLocal) => Ref(ENT_LOCAL, 0)
    case Leaf(SFile(hash)) => Ref(ENT_FILE, hash)
    case Leaf(SSymlink(hash)) => Ref(ENT_SYMLINK, hash)
  }

  function RefsOf(t: Stored): map<Name, Ref>
    requires t.Dir?
  {
    map n | n in t.entries :: RefOf(t.entries[n])
  }

  /** Reading on from the hashes of t gives all of t. */
  ghost predicate Reloads(store: Store, t: Stored) {
    t.Dir? ==>
      && t.info in store && DecodeDir(store[t.info]) == Loaded(RefsOf(t))
      && forall n :: n in t.entries ==> Reloads(store, t.entries[n])
  }

  lemma RefsTell(t: Stored, u: Stored)
    requires t.Dir? && u.Dir? && RefsOf(t) == RefsOf(u)
    ensures t.entries.Keys == u.entries.Keys
    ensures forall n :: n in t.entries ==> RefOf(t.entries[n]) == RefOf(u.entries[n])
  {
    assert t.entries.Keys == RefsOf(t).Keys == RefsOf(u).Keys == u.entries.Keys;
    forall n | n in t.entries ensures RefOf(t.entries[n]) == RefOf(u.entries[n]) {
      assert RefsOf(t)[n] == RefOf(t.entries[n]) && RefsOf(u)[n] == RefOf(u.entries[n]);
    }
  }

  /** A hash stands for one tree. */
  lemma {:induction false} HashDeterminesTree(store: Store, t: Stored, u: Stored)
    requires t.Dir? && u.Dir? && t.info == u.info && Reloads(store, t) && Reloads(store, u)
    ensures t == u
  {
    hide DecodeDir;
    assert RefsOf(t) == RefsOf(u);
    RefsTell(t, u);
    forall n | n in t.entries ensures t.entries[n] == u.entries[n] {
      if t.entries[n].Dir? && u.entries[n].Dir? {
        HashDeterminesTree(store, t.entries[n], u.entries[n]);
      }
    }
  }

  /** Objects are added to the store and none is changed. */
  ghost predicate Grown(before: Store, after: Store) {
    forall h :: h in before ==> h in after && after[h] == before[h]
  }

  /** Growing the store changes no tree it already holds. */
  lemma {:induction false} ReloadsGrows(store: Store, store': Store, t: Stored)
    requires Reloads(store, t) && Grown(store, store')
    ensures Reloads(store', t)
  {
    hide DecodeDir;
    if t.Dir? {
      forall n | n in t.entries ensures Reloads(store', t.entries[n]) {
        ReloadsGrows(store, store', t.entries[n]);
      }
    }
  }

  /** The entry says of itself what the stored tree says. */
  predicate SameLeaf(l: LeafState, s: StoredLeaf) {
    match l
    case Removed => false
    case Nonexistent => s == SNonexistent
    case Local => s == SLocal
    case File(hash, _, valid) => valid && s == SFile(hash)
    case Symlink(hash, _, changed) => !changed && s == SSymlink(hash)
  }

  predicate IsPlaceholder(e: Entry) {
    e.Leaf? && e.leaf.Removed?
  }

  /** An unmodified entry that is t as far as it has been loaded; names marked
      removed may linger in memory. */
  ghost predicate Shows(e: Entry, t: Stored) {
    match e
    case Leaf(l) => t.Leaf? && SameLeaf(l, t.leaf)
    case Dir(d, entries) =>
      && t.Dir? && !d.modified && d.hash == t.info
      && (if d.loaded then
            && (forall n :: n in t.entries ==> n in entries)
            && (forall n :: n in entries ==> (IsPlaceholder(entries[n]) <==> n !in t.entries))
            && (forall n :: n in entries && n in t.entries ==> Shows(entries[n], t.entries[n]))
          else entries == map[])
  }

  lemma FromRefShows(t: Stored)
    ensures Shows(FromRef(RefOf(t)), t)
  {
  }

  lemma LoadShows(store: Store, e: Entry, t: Stored)
    requires e.Dir? && Shows(e, t) && Reloads(store, t) && !e.info.loaded
    ensures Loadable(store, e.info.hash) && Shows(LoadDir(store, e), t)
    ensures LoadDir(store, e).Dir? && LoadDir(store, e).info.loaded
  {
    hide DecodeDir;
    var l := LoadDir(store, e);
    assert l.entries == Children(RefsOf(t));
    forall n | n in t.entries ensures n in l.entries && Shows(l.entries[n], t.entries[n]) {
      FromRefShows(t.entries[n]);
    }
  }

  // ------------------------------------------------------------------
  // Lookup.

  datatype Lookup = NotFound | Found(at: Path)

  /** The loop of ogl_repo::find from the entry at p on: it loads a directory
      only when it has to look inside. */
  ghost predicate CanFind(store: Store, root: Entry, p: Path, rest: seq<bytes>)
    decreases |rest|
  {
    Has(root, p) &&
    (rest != [] && At(root, p).Dir? ==>
       var d := At(root, p);
       && (!d.info.loaded ==> Loadable(store, d.info.hash))
       && (var d' := if d.info.loaded then d else LoadDir(store, d);
           rest[0] in d'.entries ==> CanFind(store, PutAt(root, p, d'), p + [rest[0]], rest[1..])))
  }

  ghost function FindFrom(store: Store, root: Entry, p: Path, rest: seq<bytes>): (r: (Lookup, Entry))
    requires CanFind(store, root, p, rest)
    decreases |rest|
  {
    var d := At(root, p);
    if rest == [] then (Found(p), root)
    else if d.Leaf? then (NotFound, root)
    else
      var d' := if d.info.loaded then d else LoadDir(store, d);
      var root' := PutAt(root, p, d');
      if rest[0] !in d'.entries then (NotFound, root')
      else FindFrom(store, root', p + [rest[0]], rest[1..])
  }

  lemma LoadIsDir(store: Store, e: Entry)
    requires e.Dir? && Loadable(store, e.info.hash)
    ensures LoadDir(store, e).Dir?
  {
    hide DecodeDir;
  }

  function Shifted(p: Path, r: Lookup): Lookup {
    match r
    case Found(at) => Found(p + at)
    case NotFound => NotFound
  }

  /** A lookup that starts below p is one in the subtree at p. */
  lemma {:induction false} FindBelow(store: Store, root: Entry, p: Path, q: Path, rest: seq<bytes>)
    requires Has(root, p) && Has(At(root, p), q)
    ensures CanFind(store, root, p + q, rest) <==> CanFind(store, At(root, p), q, rest)
    ensures CanFind(store, root, p + q, rest) ==>
              var (r, e) := FindFrom(store, At(root, p), q, rest);
              FindFrom(store, root, p + q, rest) == (Shifted(p, r), PutAt(root, p, e))
    decreases |rest|
  {
    hide DecodeDir, LoadDir, Has, At, PutAt, Loadable;
    HasJoin(root, p, q);
    PutSame(root, p);
    var e := At(root, p);
    var d := At(e, q);
    if rest != [] && d.Dir? && (d.info.loaded || Loadable(store, d.info.hash)) {
      var d' := if d.info.loaded then d else LoadDir(store, d);
      var e', root' := PutAt(e, q, d'), PutAt(root, p + q, d');
      PutJoin(root, p, q, d');
      AtPut(root, p, e');
      AtPut(e, q, d');
      if !d.info.loaded { LoadIsDir(store, d); }
      if rest[0] in d'.entries {
        HasChild(e', q, rest[0]);
        assert p + q + [rest[0]] == p + (q + [rest[0]]);
        FindBelow(store, root', p, q + [rest[0]], rest[1..]);
        if CanFind(store, e', q + [rest[0]], rest[1..]) {
          PutPut(root, p, e', FindFrom(store, e', q + [rest[0]], rest[1..]).1);
        }
      }
    }
  }

  class Repo {
    const rootPath: bytes
    var root: Entry
    /** The object files, shared with whoever else opens the repository. */
    var store: Store

    constructor (rootPath: bytes, store: Store, rootHash: nat)
      requires Loadable(store, rootHash)
      ensures this.rootPath == rootPath && this.store == store
      ensures root == Opened(store, rootHash)
    {
      this.rootPath, this.store := rootPath, store;
      root := LoadDir(store, FromRef(Ref(ENT_DIR, rootHash)));
    }

    /** The path is the root or properly below it. */
    predicate Searchable(path: bytes) {
      ProperRoot(rootPath) &&
      (path != rootPath ==>
         path != [] && path[0] == SLASH && AncestOf(rootPath, path) && NoEmptyComponent(Relative(rootPath, path)))
    }

    function Steps(path: bytes): seq<bytes>
      requires Searchable(path)
    {
      if path == rootPath then [] else Components(Relative(rootPath, path))
    }

    method Find(path: bytes) returns (r: Lookup)
      requires Searchable(path) && CanFind(store, root, [], Steps(path))
      modifies this`root
      ensures (r, root) == FindFrom(store, old(root), [], Steps(path))
    {
      hide DecodeDir, Loadable;
      var ent: Path := [];
      if path == rootPath {
        return Found([]);
      }
      var rpath := Relative(rootPath, path);
      while rpath != []
        invariant NoEmptyComponent(rpath)
        invariant CanFind(store, root, ent, Components(rpath))
        invariant FindFrom(store, root, ent, Components(rpath)) == FindFrom(store, old(root), [], Steps(path))
        decreases |rpath|
      {
        var dir := At(root, ent);
        if dir.Leaf? {
          return NotFound;
        }
        if !dir.info.loaded {
          dir := LoadDir(store, dir);
        }
        PutSame(root, ent);
        root := PutAt(root, ent, dir);
        var name := Head(rpath);
        rpath := Rest(rpath);
        if name !in dir.entries {
          return NotFound;
        }
        ent := ent + [name];
      }
      r := Found(ent);
    }
  }

  // ------------------------------------------------------------------
  // Lookup on demand is lookup in the whole tree.

  lemma {:induction false} ShowsAt(root: Entry, t: Stored, p: Path)
    requires Shows(root, t) && Has(root, p) && Has(t, p)
    ensures Shows(At(root, p), At(t, p))
  {
    if p != [] {
      ShowsAt(root.entries[p[0]], t.entries[p[0]], p[1..]);
    }
  }

  lemma {:induction false} ReloadsAt(store: Store, t: Stored, p: Path)
    requires Reloads(store, t) && Has(t, p)
    ensures Reloads(store, At(t, p))
  {
    if p != [] {
      ReloadsAt(store, t.entries[p[0]], p[1..]);
    }
  }

  lemma {:induction false} ShowsPut(root: Entry, t: Stored, p: Path, x: Entry)
    requires Shows(root, t) && Has(root, p) && Has(t, p) && Shows(x, At(t, p))
    ensures Shows(PutAt(root, p, x), t)
  {
    if p != [] {
      ShowsPut(root.entries[p[0]], t.entries[p[0]], p[1..], x);
    }
  }

  /** For every path: the lookup never needs a missing object, finds an entry
      exactly where the stored tree has one (or where a removed name lingers),
      the entry has the same kind and hash, and loading has changed nothing
      that can be seen. */
  lemma {:induction false} FindShows(store: Store, root: Entry, t: Stored, p: Path, rest: seq<bytes>)
    requires Shows(root, t) && Reloads(store, t) && Has(root, p) && Has(t, p)
    ensures CanFind(store, root, p, rest)
    ensures var (r, root') := FindFrom(store, root, p, rest);
      && Shows(root', t)
      && (r.Found? ==> Has(root', r.at) && r.at == p + rest)
      && (r.Found? && Has(t, r.at) ==> Shows(At(root', r.at), At(t, r.at)))
      && (r.Found? && !Has(t, r.at) ==> IsPlaceholder(At(root', r.at)))
      && (r.NotFound? ==> forall q: Path :: q == p + rest ==> !Has(t, q))
    decreases |rest|
  {
    hide DecodeDir, LoadDir, PutAt, Loadable;
    ShowsAt(root, t, p);
    ReloadsAt(store, t, p);
    var d := At(root, p);
    if rest == [] {
      assert p + rest == p;
    } else if d.Dir? {
      if !d.info.loaded { LoadShows(store, d, At(t, p)); }
      var d' := if d.info.loaded then d else LoadDir(store, d);
      var root' := PutAt(root, p, d');
      ShowsPut(root, t, p, d');
      AtPut(root, p, d');
      var n := rest[0];
      assert p + rest == p + [n] + rest[1..];
      if n in d'.entries {
        HasChild(root', p, n);
        HasChild(t, p, n);
        if Has(t, p + [n]) {
          FindShows(store, root', t, p + [n], rest[1..]);
        } else {
          PlaceholderEnds(store, root', t, p + [n], rest[1..]);
        }
      } else {
        assert n !in At(t, p).entries;
        forall q: Path | q == p + rest ensures !Has(t, q) {
          MissingEnds(t, p, q);
        }
      }
    } else {
      forall q: Path | q == p + rest ensures !Has(t, q) {
        HasJoin(t, p, q[|p|..]);
        assert q == p + q[|p|..];
      }
    }
  }

  lemma MissingEnds(t: Stored, p: Path, q: Path)
    requires HasDir(t, p) && p < q && q[|p|] !in At(t, p).entries
    ensures !Has(t, q)
  {
    hide Has, At;
    HasChild(t, p, q[|p|]);
    assert q == (p + [q[|p|]]) + q[|p| + 1..];
    HasJoin(t, p + [q[|p|]], q[|p| + 1..]);
  }

  lemma PlaceholderEnds(store: Store, root: Entry, t: Stored, p: Path, rest: seq<bytes>)
    requires Has(root, p) && IsPlaceholder(At(root, p)) && !Has(t, p)
    ensures CanFind(store, root, p, rest)
    ensures FindFrom(store, root, p, rest) == (if rest == [] then Found(p) else NotFound, root)
    ensures forall q: Path :: q == p + rest ==> !Has(t, q)
  {
    hide DecodeDir, LoadDir, PutAt, Loadable;
    forall q: Path | q == p + rest ensures !Has(t, q) {
      HasJoin(t, p, q[|p|..]);
      assert q == p + q[|p|..];
    }
  }

  /** The steps a lookup takes for a spelled path are the path. */
  lemma StepsOfSpelling(repo: Repo, p: Path)
    requires ProperRoot(repo.rootPath)
    ensures repo.Searchable(Spell(repo.rootPath, p)) && repo.Steps(Spell(repo.rootPath, p)) == p
  {
    if p != [] {
      SpellingParses(repo.rootPath, p);
    }
  }

  /** Lookup undoes get_path: on a repository loaded on demand, the spelling of
      p finds the entry at p exactly when the stored tree has it there. */
  lemma LookupInvertsSpelling(repo: Repo, store: Store, root: Entry, t: Stored, p: Path)
    requires ProperRoot(repo.rootPath) && Shows(root, t) && Reloads(store, t) && Has(t, p)
    ensures var s := Spell(repo.rootPath, p);
      && repo.Searchable(s) && CanFind(store, root, [], repo.Steps(s))
      && var (r, root') := FindFrom(store, root, [], repo.Steps(s));
         r == Found(p) && Shows(root', t) && Has(root', p) && Shows(At(root', p), At(t, p))
  {
    hide FindFrom, CanFind, Shows, Reloads, DecodeDir;
    StepsOfSpelling(repo, p);
    FindShows(store, root, t, [], p);
    assert [] + p == p;
  }

  // ------------------------------------------------------------------
  // Trees without names marked removed.

  ghost predicate NoPlaceholders(e: Entry) {
    !IsPlaceholder(e) && (e.Dir? ==> forall n :: n in e.entries ==> NoPlaceholders(e.entries[n]))
  }

  lemma {:induction false} CleanAt(e: Entry, p: Path)
    requires NoPlaceholders(e) && Has(e, p)
    ensures NoPlaceholders(At(e, p))
  {
    if p != [] {
      CleanAt(e.entries[p[0]], p[1..]);
    }
  }

  lemma {:induction false} CleanPut(e: Entry, p: Path, x: Entry)
    requires NoPlaceholders(e) && Has(e, p) && NoPlaceholders(x)
    ensures NoPlaceholders(PutAt(e, p, x))
  {
    if p != [] {
      CleanPut(e.entries[p[0]], p[1..], x);
    }
  }

  lemma LoadClean(store: Store, e: Entry)
    requires e.Dir? && NoPlaceholders(e) && Loadable(store, e.info.hash)
    ensures NoPlaceholders(LoadDir(store, e))
  {
    hide DecodeDir;
  }

  /** Lookup brings none in. */
  lemma {:induction false} FindClean(store: Store, root: Entry, p: Path, rest: seq<bytes>)
    requires NoPlaceholders(root) && CanFind(store, root, p, rest)
    ensures NoPlaceholders(FindFrom(store, root, p, rest).1)
    decreases |rest|
  {
    hide DecodeDir, PutAt, NoPlaceholders, Loadable;
    if rest != [] && At(root, p).Dir? {
      var d := At(root, p);
      CleanAt(root, p);
      if !d.info.loaded { LoadClean(store, d); }
      var d' := if d.info.loaded then d else LoadDir(store, d);
      CleanPut(root, p, d');
      if rest[0] in d'.entries {
        FindClean(store, PutAt(root, p, d'), p + [rest[0]], rest[1..]);
      }
    }
  }

  /** A repository just opened on a root hash. */
  function Opened(store: Store, hash: nat): Entry
    requires Loadable(store, hash)
  {
    LoadDir(store, FromRef(Ref(ENT_DIR, hash)))
  }

  /** It finds exactly the paths of the tree under that hash, and there entries
      of the kind and hash that the tree has. */
  lemma OpenedFinds(store: Store, t: Stored, p: Path)
    requires t.Dir? && Reloads(store, t)
    ensures Loadable(store, t.info) && CanFind(store, Opened(store, t.info), [], p)
    ensures var (r, root) := FindFrom(store, Opened(store, t.info), [], p);
      && (r.Found? <==> Has(t, p))
      && (r.Found? ==> r.at == p && Has(root, p) && Shows(At(root, p), At(t, p)))
  {
    hide DecodeDir, FindFrom, CanFind;
    var e := FromRef(RefOf(t));
    LoadShows(store, e, t);
    var root := Opened(store, t.info);
    FindShows(store, root, t, [], p);
    LoadClean(store, e);
    FindClean(store, root, [], p);
    var (r, root') := FindFrom(store, root, [], p);
    assert [] + p == p;
    if r.Found? {
      CleanAt(root', p);
    }
  }

  // ------------------------------------------------------------------
  // Paths that are in memory.

  /** A directory that is not loaded has no entries yet. */
  ghost predicate Tidy(e: Entry) {
    e.Dir? ==> (!e.info.loaded ==> e.entries == map[]) && forall n :: n in e.entries ==> Tidy(e.entries[n])
  }

  /** All directories above p are loaded. */
  predicate OpenTo(e: Entry, p: Path) {
    p == [] || (e.Dir? && e.info.loaded && p[0] in e.entries && OpenTo(e.entries[p[0]], p[1..]))
  }

  lemma {:induction false} TidyOpens(e: Entry, p: Path)
    requires Tidy(e) && Has(e, p)
    ensures OpenTo(e, p) && Tidy(At(e, p))
  {
    if p != [] {
      TidyOpens(e.entries[p[0]], p[1..]);
    }
  }

  /** There a lookup loads nothing. */
  lemma {:induction false} FindOpen(store: Store, root: Entry, p: Path, rest: Path)
    requires Has(root, p) && OpenTo(At(root, p), rest)
    ensures CanFind(store, root, p, rest) && FindFrom(store, root, p, rest) == (Found(p + rest), root)
    decreases |rest|
  {
    hide DecodeDir, LoadDir, Loadable;
    if rest == [] {
      assert p + rest == p;
    } else {
      PutSame(root, p);
      HasChild(root, p, rest[0]);
      assert (p + [rest[0]]) + rest[1..] == p + rest;
      FindOpen(store, root, p + [rest[0]], rest[1..]);
    }
  }

  // ------------------------------------------------------------------
  // Trees that are all in memory.

  ghost predicate AllLoaded(e: Entry) {
    e.Dir? ==> e.info.loaded && forall n :: n in e.entries ==> AllLoaded(e.entries[n])
  }

  lemma {:induction false} AllLoadedAt(e: Entry, p: Path)
    requires AllLoaded(e) && Has(e, p)
    ensures AllLoaded(At(e, p))
  {
    if p != [] {
      AllLoadedAt(e.entries[p[0]], p[1..]);
    }
  }

  /** There the lookup loads nothing and finds what is at the path. */
  lemma {:induction false} FindInMemory(store: Store, root: Entry, p: Path, rest: Path)
    requires AllLoaded(root) && Has(root, p)
    ensures CanFind(store, root, p, rest)
    ensures FindFrom(store, root, p, rest) == (if Has(root, p + rest) then Found(p + rest) else NotFound, root)
    decreases |rest|
  {
    hide DecodeDir, LoadDir, Loadable;
    AllLoadedAt(root, p);
    HasJoin(root, p, rest);
    if rest == [] {
      assert p + rest == p;
    } else if At(root, p).Dir? {
      PutSame(root, p);
      HasChild(root, p, rest[0]);
      assert (p + [rest[0]]) + rest[1..] == p + rest;
      if rest[0] in At(root, p).entries {
        FindInMemory(store, root, p + [rest[0]], rest[1..]);
      }
    }
  }
}
