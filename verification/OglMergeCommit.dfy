/** Committing the result of a merge: which merges leave a tree that the store
    can hold. */
module OglMergeCommit {
  import opened Wire
  import opened OglTree
  import opened OglRepo
  import opened OglMerge
  import opened OglCommit
  import opened OglSession

  // ------------------------------------------------------------------
  // Readiness, directory by directory.

  /** A marked directory is loaded, one not marked is in the store. */
  ghost predicate SoundAt(store: Store, e: Entry, p: Path)
    requires HasDir(e, p)
  {
    if At(e, p).info.modified then At(e, p).info.loaded else Stands(store, At(e, p))
  }

  lemma {:induction false} SoundIsReady(store: Store, e: Entry)
    requires forall p :: HasDir(e, p) ==> SoundAt(store, e, p)
    ensures Ready(store, e)
  {
    hide Stands;
    if e.Dir? {
      assert HasDir(e, []) && SoundAt(store, e, []);
      if e.info.modified {
        forall n | n in e.entries ensures Ready(store, e.entries[n]) {
          forall p | HasDir(e.entries[n], p) ensures SoundAt(store, e.entries[n], p) {
            var q := [n] + p;
            assert q[0] == n && q[1..] == p;
            assert HasDir(e, q) && At(e, q) == At(e.entries[n], p) && SoundAt(store, e, q);
          }
          SoundIsReady(store, e.entries[n]);
        }
      }
    }
  }

  /** A tree can be committed if and only if all its directories are sound. */
  lemma ReadyWhere(store: Store, e: Entry)
    ensures Ready(store, e) <==> forall p :: HasDir(e, p) ==> SoundAt(store, e, p)
  {
    hide Stands, Ready, Has, At;
    if Ready(store, e) {
      forall p | HasDir(e, p) ensures SoundAt(store, e, p) {
        ReadyAt(store, e, p);
        ReadyIsSound(store, At(e, p));
      }
    } else {
      if forall p :: HasDir(e, p) ==> SoundAt(store, e, p) {
        SoundIsReady(store, e);
      }
    }
  }

  lemma ReadyIsSound(store: Store, e: Entry)
    requires Ready(store, e) && e.Dir?
    ensures if e.info.modified then e.info.loaded else Stands(store, e)
  {
  }

  lemma StandingHash(store: Store, e: Entry)
    requires Stands(store, e) && e.Dir?
    ensures e.info.hash in store
  {
  }

  lemma {:induction false} ShownIsTidy(e: Entry, t: Stored)
    requires Shows(e, t)
    ensures Tidy(e)
  {
    if e.Dir? {
      forall n | n in e.entries ensures Tidy(e.entries[n]) {
        if n in t.entries {
          ShownIsTidy(e.entries[n], t.entries[n]);
        }
      }
    }
  }

  /** Every tree that can be committed can be merged. */
  lemma {:induction false} ReadyIsTidy(store: Store, e: Entry)
    requires Ready(store, e)
    ensures Tidy(e)
  {
    hide Reloads;
    if e.Dir? {
      if e.info.modified {
        forall n | n in e.entries ensures Tidy(e.entries[n]) {
          ReadyIsTidy(store, e.entries[n]);
        }
      } else {
        var t :| Shows(e, t) && Reloads(store, t);
        ShownIsTidy(e, t);
      }
    }
  }

  // ------------------------------------------------------------------
  // What a merge brings in.

  /** All directories are marked. */
  ghost predicate AllMarked(e: Entry) {
    e.Dir? ==> e.info.modified && forall n :: n in e.entries ==> AllMarked(e.entries[n])
  }

  lemma {:induction false} AllMarkedAt(e: Entry, p: Path)
    requires AllMarked(e) && HasDir(e, p)
    ensures At(e, p).info.modified
  {
    if p != [] {
      AllMarkedAt(e.entries[p[0]], p[1..]);
    }
  }

  lemma {:induction false} MarkedEverywhere(e: Entry)
    requires forall p :: HasDir(e, p) ==> At(e, p).info.modified
    ensures AllMarked(e)
  {
    if e.Dir? {
      assert HasDir(e, []);
      forall n | n in e.entries ensures AllMarked(e.entries[n]) {
        forall p | HasDir(e.entries[n], p) ensures At(e.entries[n], p).info.modified {
          var q := [n] + p;
          assert q[0] == n && q[1..] == p;
          assert HasDir(e, q) && At(e, q) == At(e.entries[n], p);
        }
        MarkedEverywhere(e.entries[n]);
      }
    }
  }

  /** Whatever src adds or puts in place of something else, wherever the merge
      gets to, has only marked directories. */
  ghost predicate BringsMarked(s: Entry, c: Entry, d: Content)
    requires s.Dir? && c.Dir? && d.Dir? && Applicable(s, c, d)
    decreases s
  {
    forall n :: n in s.entries && TakesSrc(s, c, n) ==>
      if GoesInside(s, c, d, n) then BringsMarked(s.entries[n], c.entries[n], d.entries[n]) else AllMarked(s.entries[n])
  }

  /** A directory of the merged tree where dst had none. */
  ghost predicate Foreign(m: Content, d: Content, p: Path) {
    HasDir(m, p) && !HasDir(d, p)
  }

  ghost predicate MarkedIn(s: Entry, p: Path) {
    HasDir(s, p) && At(s, p).info.modified
  }

  lemma {:induction false} ForeignIsMarked(s: Entry, c: Entry, d: Content, p: Path)
    requires s.Dir? && c.Dir? && d.Dir? && Applicable(s, c, d) && BringsMarked(s, c, d)
    requires Foreign(Merged(s, c, d), d, p)
    ensures MarkedIn(s, p)
    decreases |p|
  {
    hide Applicable, Merged, AllMarked, ContentOf;
    var m := Merged(s, c, d);
    var n, q := p[0], p[1..];
    MergedAt(s, c, d, n);
    if TakesSrc(s, c, n) {
      if GoesInside(s, c, d, n) {
        ForeignIsMarked(s.entries[n], c.entries[n], d.entries[n], q);
      } else {
        ContentHasDir(s.entries[n], q);
        AllMarkedAt(s.entries[n], q);
      }
    }
  }

  lemma ContentHasDir(e: Entry, p: Path)
    ensures HasDir(ContentOf(e), p) <==> HasDir(e, p)
  {
    hide Has, At, ContentOf;
    ContentAt(e, p);
    if Has(e, p) { ContentKind(At(e, p)); }
  }

  /** A name of the merged directory. */
  lemma MergedAt(s: Entry, c: Entry, d: Content, n: Name)
    requires s.Dir? && c.Dir? && d.Dir? && Applicable(s, c, d)
    ensures var m := Merged(s, c, d);
      && m.Dir?
      && (n in m.entries <==> TakesSrc(s, c, n) || (n in d.entries && OpOf(s, c, n) == Same))
      && (TakesSrc(s, c, n) && GoesInside(s, c, d, n) ==>
            && n in c.entries && c.entries[n].Dir? && Applicable(s.entries[n], c.entries[n], d.entries[n])
            && m.entries[n] == Merged(s.entries[n], c.entries[n], d.entries[n]))
      && (TakesSrc(s, c, n) && !GoesInside(s, c, d, n) ==> m.entries[n] == ContentOf(s.entries[n]))
      && (n in m.entries && !TakesSrc(s, c, n) ==> m.entries[n] == d.entries[n])
  {
  }

  /** A directory put in is where dst had none. */
  lemma PutInIsForeign(s: Entry, c: Entry, d: Content, n: Name, q: Path)
    requires s.Dir? && c.Dir? && d.Dir? && Applicable(s, c, d)
    requires n in s.entries && TakesSrc(s, c, n) && !GoesInside(s, c, d, n) && HasDir(s.entries[n], q)
    ensures Foreign(Merged(s, c, d), d, [n] + q)
  {
    hide Merged, ContentOf;
    MergedAt(s, c, d, n);
    ContentHasDir(s.entries[n], q);
    LeafEnds(s.entries[n], q);
    var p := [n] + q;
    assert p[0] == n && p[1..] == q;
    if HasDir(d, p) {
      LeafEnds(d.entries[n], q);
      assert false;
    }
  }

  lemma {:induction false} MarkedBrings(s: Entry, c: Entry, d: Content)
    requires s.Dir? && c.Dir? && d.Dir? && Applicable(s, c, d)
    requires forall p :: Foreign(Merged(s, c, d), d, p) ==> MarkedIn(s, p)
    ensures BringsMarked(s, c, d)
    decreases s
  {
    hide Applicable, Merged, AllMarked, ContentOf, GoesInside, TakesSrc;
    var m := Merged(s, c, d);
    forall n | n in s.entries && TakesSrc(s, c, n)
      ensures GoesInside(s, c, d, n) ==>
                && n in c.entries && c.entries[n].Dir? && n in d.entries && d.entries[n].Dir? && s.entries[n].Dir?
                && Applicable(s.entries[n], c.entries[n], d.entries[n])
                && BringsMarked(s.entries[n], c.entries[n], d.entries[n])
      ensures !GoesInside(s, c, d, n) ==> AllMarked(s.entries[n])
    {
      MergedAt(s, c, d, n);
      if GoesInside(s, c, d, n) {
        InsideDirs(s, c, d, n);
        forall q | Foreign(Merged(s.entries[n], c.entries[n], d.entries[n]), d.entries[n], q) ensures MarkedIn(s.entries[n], q) {
          ForeignInside(s, c, d, n, q);
        }
        MarkedBrings(s.entries[n], c.entries[n], d.entries[n]);
      } else {
        forall q | HasDir(s.entries[n], q) ensures At(s.entries[n], q).info.modified {
          PutInIsForeign(s, c, d, n, q);
          MarkedStepDown(s, n, q);
        }
        MarkedEverywhere(s.entries[n]);
      }
    }
  }

  lemma InsideDirs(s: Entry, c: Entry, d: Content, n: Name)
    requires s.Dir? && c.Dir? && d.Dir? && GoesInside(s, c, d, n)
    ensures n in s.entries && s.entries[n].Dir? && n in d.entries && d.entries[n].Dir?
  {
  }

  lemma MarkedStepDown(s: Entry, n: Name, q: Path)
    requires MarkedIn(s, [n] + q) && s.Dir? && n in s.entries
    ensures MarkedIn(s.entries[n], q)
  {
    assert ([n] + q)[0] == n && ([n] + q)[1..] == q;
  }

  lemma ForeignInside(s: Entry, c: Entry, d: Content, n: Name, q: Path)
    requires s.Dir? && c.Dir? && d.Dir? && Applicable(s, c, d)
    requires forall p :: Foreign(Merged(s, c, d), d, p) ==> MarkedIn(s, p)
    requires n in s.entries && TakesSrc(s, c, n) && GoesInside(s, c, d, n) && n in c.entries && c.entries[n].Dir?
    requires Foreign(Merged(s.entries[n], c.entries[n], d.entries[n]), d.entries[n], q)
    ensures MarkedIn(s.entries[n], q)
  {
    hide Applicable, Merged, ContentOf;
    MergedAt(s, c, d, n);
    var p := [n] + q;
    assert p[0] == n && p[1..] == q;
    assert Foreign(Merged(s, c, d), d, p);
    MarkedStepDown(s, n, q);
  }

  // ------------------------------------------------------------------
  // The merged tree and the commit.

  lemma MergeIsApplicable(s: Entry, c: Entry, d: Entry, r: Entry, junk: nat)
    requires IsMerge(s, c, d, r, junk)
    ensures Applicable(s, c, ContentOf(d))
  {
    CompatibleApplies(s, c, d);
  }

  /** A directory that src brought in unmarked is left with an unset hash. */
  lemma ForeignAt(s: Entry, c: Entry, d: Entry, r: Entry, junk: nat, p: Path)
    requires IsMerge(s, c, d, r, junk)
    ensures HasDir(r, p) && !HasDir(d, p) <==> Foreign(Merged(s, c, ContentOf(d)), ContentOf(d), p)
    ensures HasDir(r, p) && !HasDir(d, p) ==> HasDir(s, p) && Copied(At(s, p), At(r, p), junk)
    ensures HasDir(r, p) && HasDir(d, p) ==> Kept(At(d, p), At(r, p))
  {
    hide Has, At, ContentOf, Merged, Compatible;
    ContentHasDir(r, p);
    ContentHasDir(d, p);
  }

  /** A merge of a src in order into a dst in order leaves one if and only if
      every directory that src brings in is marked there, and nothing is put
      into a directory of dst that is not loaded. */
  lemma MergedReady(store: Store, s: Entry, c: Entry, d: Entry, r: Entry, junk: nat)
    requires IsMerge(s, c, d, r, junk) && Ready(store, s) && Ready(store, d) && junk !in store
    ensures Applicable(s, c, ContentOf(d))
    ensures Ready(store, r) <==> BringsMarked(s, c, ContentOf(d)) && !FillsUnloaded(s, c, d)
  {
    hide Has, At, ContentOf, Merged, Compatible, Ready, Stands, Applicable, BringsMarked, Marked, Foreign, Filled, FillsUnloaded,
         SoundAt;
    MergeIsApplicable(s, c, d, r, junk);
    MergedDirs(s, c, d, r, junk);
    ReadyIsTidy(store, d);
    var x := ContentOf(d);
    ReadyWhere(store, r);
    if BringsMarked(s, c, x) && !FillsUnloaded(s, c, d) {
      forall p | HasDir(r, p) ensures SoundAt(store, r, p) {
        MergedIsSound(store, s, c, d, r, junk, p);
      }
    }
    if Ready(store, r) {
      forall p | Foreign(Merged(s, c, x), x, p) ensures MarkedIn(s, p) {
        ForeignIsSound(store, s, c, d, r, junk, p);
      }
      MarkedBrings(s, c, x);
      if FillsUnloaded(s, c, d) {
        var p := FilledWhere(s, c, d);
        FilledAt(s, c, d, r, junk, p);
        FilledIsUnsound(store, d, r, p);
        assert false;
      }
    }
  }

  lemma MergedIsSound(store: Store, s: Entry, c: Entry, d: Entry, r: Entry, junk: nat, p: Path)
    requires IsMerge(s, c, d, r, junk) && Ready(store, s) && Ready(store, d) && Tidy(d)
    requires Applicable(s, c, ContentOf(d)) && BringsMarked(s, c, ContentOf(d)) && !FillsUnloaded(s, c, d)
    requires HasDir(r, p)
    ensures SoundAt(store, r, p)
  {
    hide Has, At, ContentOf, Merged, Compatible, Ready, Stands, Applicable, BringsMarked, Marked, Foreign, Filled, FillsUnloaded,
         Tidy;
    ForeignAt(s, c, d, r, junk, p);
    if HasDir(d, p) {
      ReadyAt(store, d, p);
      ReadyIsSound(store, At(d, p));
      FilledAt(s, c, d, r, junk, p);
      if Filled(Merged(s, c, ContentOf(d)), d, p) {
        FilledFills(s, c, d, p);
      }
    } else {
      ForeignIsMarked(s, c, ContentOf(d), p);
      ReadyAt(store, s, p);
      ReadyIsSound(store, At(s, p));
    }
  }

  /** A copy whose hash is unset is sound only if it is marked. */
  lemma ForeignIsSound(store: Store, s: Entry, c: Entry, d: Entry, r: Entry, junk: nat, p: Path)
    requires IsMerge(s, c, d, r, junk) && junk !in store && Foreign(Merged(s, c, ContentOf(d)), ContentOf(d), p)
    requires forall q :: HasDir(r, q) ==> SoundAt(store, r, q)
    ensures MarkedIn(s, p)
  {
    hide Has, At, ContentOf, Merged, Compatible, Stands, Marked, Foreign;
    ForeignAt(s, c, d, r, junk, p);
    assert SoundAt(store, r, p);
    if !At(s, p).info.modified {
      StandingHash(store, At(r, p));
      assert false;
    }
  }

  // ------------------------------------------------------------------
  // Directories of dst that are not loaded.

  /** src adds names to a directory of dst that is not loaded. */
  ghost predicate FillsUnloaded(s: Entry, c: Entry, d: Entry)
    requires s.Dir? && c.Dir? && d.Dir?
    decreases s
  {
    exists n :: n in s.entries && TakesSrc(s, c, n)
      && (!d.info.loaded
          || (n in c.entries && n in d.entries && s.entries[n].Dir? && c.entries[n].Dir? && d.entries[n].Dir?
              && FillsUnloaded(s.entries[n], c.entries[n], d.entries[n])))
  }

  /** A directory not loaded in dst has entries in the merged tree. */
  ghost predicate Filled(m: Content, d: Entry, p: Path) {
    HasDir(m, p) && HasDir(d, p) && !At(d, p).info.loaded && At(m, p).entries != map[]
  }

  lemma {:induction false} FilledFills(s: Entry, c: Entry, d: Entry, p: Path)
    requires s.Dir? && c.Dir? && d.Dir? && Tidy(d) && ContentOf(d).Dir? && Applicable(s, c, ContentOf(d))
    requires Filled(Merged(s, c, ContentOf(d)), d, p)
    ensures FillsUnloaded(s, c, d)
    decreases |p|
  {
    hide Merged, ContentOf;
    var x, m := ContentOf(d), Merged(s, c, ContentOf(d));
    ShallowContent(d);
    if p == [] {
      var n :| n in m.entries;
      MergedAt(s, c, x, n);
      assert n in s.entries && TakesSrc(s, c, n);
    } else {
      var n, q := p[0], p[1..];
      MergedAt(s, c, x, n);
      LeafEnds(d.entries[n], q);
      LeafEnds(m.entries[n], q);
      ContentKind(d.entries[n]);
      if TakesSrc(s, c, n) {
        ContentKind(s.entries[n]);
        FilledFills(s.entries[n], c.entries[n], d.entries[n], q);
        assert n in s.entries && TakesSrc(s, c, n);
      } else {
        StillEmpty(d.entries[n], q);
      }
    }
  }

  lemma StillEmpty(e: Entry, p: Path)
    requires Tidy(e) && HasDir(e, p) && !At(e, p).info.loaded
    ensures HasDir(ContentOf(e), p) && At(ContentOf(e), p).entries == map[]
  {
    hide Has, At, ContentOf;
    TidyOpens(e, p);
    ContentHasDir(e, p);
    ContentAt(e, p);
    ShallowContent(At(e, p));
  }

  lemma {:induction false} FilledWhere(s: Entry, c: Entry, d: Entry) returns (p: Path)
    requires s.Dir? && c.Dir? && d.Dir? && Tidy(d) && ContentOf(d).Dir? && Applicable(s, c, ContentOf(d))
    requires FillsUnloaded(s, c, d)
    ensures Filled(Merged(s, c, ContentOf(d)), d, p)
    decreases s
  {
    hide Applicable, Merged, ContentOf;
    var x := ContentOf(d);
    var n :| n in s.entries && TakesSrc(s, c, n)
      && (!d.info.loaded
          || (n in c.entries && n in d.entries && s.entries[n].Dir? && c.entries[n].Dir? && d.entries[n].Dir?
              && FillsUnloaded(s.entries[n], c.entries[n], d.entries[n])));
    ShallowContent(d);
    MergedAt(s, c, x, n);
    if !d.info.loaded {
      p := [];
      assert n in Merged(s, c, x).entries;
    } else {
      ContentKind(d.entries[n]);
      var q := FilledWhere(s.entries[n], c.entries[n], d.entries[n]);
      p := [n] + q;
      assert p[0] == n && p[1..] == q;
    }
  }

  /** In the tree in memory the names show too. */
  lemma FilledAt(s: Entry, c: Entry, d: Entry, r: Entry, junk: nat, p: Path)
    requires IsMerge(s, c, d, r, junk)
    ensures Filled(Merged(s, c, ContentOf(d)), d, p) <==>
            HasDir(r, p) && HasDir(d, p) && !At(d, p).info.loaded && At(r, p).entries != map[]
    ensures HasDir(r, p) && HasDir(d, p) ==> Kept(At(d, p), At(r, p))
  {
    hide Has, At, ContentOf, Merged, Compatible;
    ContentHasDir(r, p);
    ContentAt(r, p);
    if HasDir(r, p) { ShallowContent(At(r, p)); }
  }

  lemma FilledIsUnsound(store: Store, d: Entry, r: Entry, p: Path)
    requires Ready(store, d) && Tidy(d) && HasDir(d, p) && HasDir(r, p) && Kept(At(d, p), At(r, p))
    requires !At(d, p).info.loaded && At(r, p).entries != map[]
    ensures !SoundAt(store, r, p)
  {
    hide Has, At, Stands;
    TidyOpens(d, p);
    ReadyAt(store, d, p);
  }

  lemma MergedDirs(s: Entry, c: Entry, d: Entry, r: Entry, junk: nat)
    requires IsMerge(s, c, d, r, junk)
    ensures Marked(d, s, r, junk) && s.Dir? && c.Dir? && ContentOf(d).Dir?
  {
  }

  lemma {:induction false} AssertsWhere(e: Entry)
    requires forall p :: HasDir(e, p) && At(e, p).info.modified ==> At(e, p).info.loaded
    ensures CommitAsserts(e)
  {
    if IsModifiedDir(e) {
      assert HasDir(e, []);
      forall n | n in e.entries ensures CommitAsserts(e.entries[n]) {
        forall p | HasDir(e.entries[n], p) && At(e.entries[n], p).info.modified ensures At(e.entries[n], p).info.loaded {
          var q := [n] + p;
          assert q[0] == n && q[1..] == p;
          assert HasDir(e, q) && At(e, q) == At(e.entries[n], p);
        }
        AssertsWhere(e.entries[n]);
      }
    }
  }

  lemma {:induction false} MarkedWayIsLive(e: Entry, p: Path)
    requires HasDir(e, p) && forall q :: q <= p && HasDir(e, q) ==> At(e, q).info.modified
    ensures Live(e, p)
  {
    assert [] <= p && HasDir(e, []);
    if p != [] {
      var n := p[0];
      forall q | q <= p[1..] && HasDir(e.entries[n], q) ensures At(e.entries[n], q).info.modified {
        var l := [n] + q;
        assert l[0] == n && l[1..] == q && l <= p;
        assert HasDir(e, l) && At(e, l) == At(e.entries[n], q);
      }
      MarkedWayIsLive(e.entries[n], p[1..]);
    }
  }

  /** All above a directory that got names is marked. */
  lemma FilledIsLive(s: Entry, c: Entry, d: Entry, r: Entry, junk: nat, p: Path)
    requires IsMerge(s, c, d, r, junk) && Tidy(d) && Filled(Merged(s, c, ContentOf(d)), d, p)
    ensures Live(r, p) && HasDir(r, p) && !At(r, p).info.loaded
  {
    hide Has, At, ContentOf, Merged, Compatible;
    FilledAt(s, c, d, r, junk, p);
    TidyOpens(d, p);
    forall q | q <= p && HasDir(r, q) ensures At(r, q).info.modified {
      DirOnTheWay(d, q, p);
      ForeignAt(s, c, d, r, junk, q);
      var below := p[|q|..];
      assert p == q + below;
      HasJoin(r, q, below);
      HasJoin(d, q, below);
    }
    MarkedWayIsLive(r, p);
    LiveAt(r, p);
  }

  /** After a merge the assert of commit holds if and only if nothing was put
      into a directory that is not loaded. */
  lemma MergedAsserts(store: Store, s: Entry, c: Entry, d: Entry, r: Entry, junk: nat)
    requires IsMerge(s, c, d, r, junk) && Ready(store, s) && Ready(store, d)
    ensures CommitAsserts(r) <==> !FillsUnloaded(s, c, d)
  {
    hide Has, At, ContentOf, Merged, Compatible, Ready, Stands, Applicable, Marked, Filled, FillsUnloaded, CommitAsserts;
    MergeIsApplicable(s, c, d, r, junk);
    MergedDirs(s, c, d, r, junk);
    ReadyIsTidy(store, d);
    if FillsUnloaded(s, c, d) {
      var p := FilledWhere(s, c, d);
      FilledIsLive(s, c, d, r, junk, p);
      LiveAt(r, p);
    } else {
      forall p | HasDir(r, p) && At(r, p).info.modified ensures At(r, p).info.loaded {
        ForeignAt(s, c, d, r, junk, p);
        if HasDir(d, p) {
          ReadyAt(store, d, p);
          ReadyIsSound(store, At(d, p));
          FilledAt(s, c, d, r, junk, p);
          if Filled(Merged(s, c, ContentOf(d)), d, p) {
            FilledFills(s, c, d, p);
          }
        } else {
          ReadyAt(store, s, p);
          ReadyIsSound(store, At(s, p));
        }
      }
      AssertsWhere(r);
    }
  }

  /** Commit leaves an unmarked directory as it is. */
  lemma {:induction false} UnmarkedStays(env: Env, e: Entry, q: Path, p: Path)
    requires ValidEnv(env) && AllValid(Gather(env, e, q)) && HasDir(e, p) && !At(e, p).info.modified
    ensures var r := Dumped(env, Gather(env, e, q), q); HasDir(r, p) && At(r, p) == At(e, p)
    decreases |p|
  {
    hide Pow256, ObjectOf;
    if p != [] && e.info.modified {
      var n := p[0];
      ChildrenAllValid(Gather(env, e, q));
      assert Gather(env, e, q).entries[n] == Gather(env, e.entries[n], q + [n]);
      UnmarkedStays(env, e.entries[n], q + [n], p[1..]);
      DumpedDir(env, Gather(env, e, q), q);
    }
  }

  /** When commit gets through after it, the store has what memory has if and
      only if every directory brought in was marked.  Otherwise some directory is
      recorded under the hash that was never set. */
  lemma MergeThenCommit(env: Env, before: Store, s: Entry, c: Entry, d: Entry, r: Entry, junk: nat, after: Store, r': Entry)
    requires IsMerge(s, c, d, r, junk) && Ready(before, s) && Ready(before, d) && CommitAsserts(r)
    requires ValidEnv(env) && AllValid(r) && Sized(env, r) && CommitsTo(env, r, before, r', after) && junk !in after
    ensures Applicable(s, c, ContentOf(d))
    ensures Stands(after, r') <==> BringsMarked(s, c, ContentOf(d))
  {
    hide Has, At, ContentOf, Merged, Compatible, Ready, Stands, Applicable, BringsMarked, Marked, Foreign, Sized, FillsUnloaded,
         PartsStored, AllValid, Gather, Dumped, CommitAsserts;
    MergeIsApplicable(s, c, d, r, junk);
    MergedAsserts(before, s, c, d, r, junk);
    MergedDirs(s, c, d, r, junk);
    var x := ContentOf(d);
    assert junk !in before;
    if BringsMarked(s, c, x) {
      MergedReady(before, s, c, d, r, junk);
      CommittedStands(env, r, before, r', after);
    }
    if Stands(after, r') {
      GatherValid(env, r, []);
      forall p | Foreign(Merged(s, c, x), x, p) ensures MarkedIn(s, p) {
        ForeignAt(s, c, d, r, junk, p);
        if !At(s, p).info.modified {
          UnmarkedStays(env, r, [], p);
          StandsBelow(after, r', p);
          StandingHash(after, At(r', p));
          assert false;
        }
      }
      MarkedBrings(s, c, x);
    }
  }

  /** What stands stands everywhere below. */
  lemma StandsBelow(store: Store, e: Entry, p: Path)
    requires Stands(store, e) && HasDir(e, p)
    ensures Stands(store, At(e, p))
  {
    hide Shows, Reloads, Has, At;
    var t :| Shows(e, t) && Reloads(store, t);
    ShownHas(e, t, p);
    ShowsAt(e, t, p);
    ReloadsAt(store, t, p);
  }

  // ------------------------------------------------------------------
  // A src that has been committed.

  /** src adds a directory, or puts one in place of something else, somewhere
      the merge gets to. */
  ghost predicate BringsDir(s: Entry, c: Entry, d: Content)
    requires s.Dir? && c.Dir? && d.Dir? && Applicable(s, c, d)
    decreases s
  {
    exists n :: n in s.entries && TakesSrc(s, c, n) &&
      if GoesInside(s, c, d, n) then BringsDir(s.entries[n], c.entries[n], d.entries[n]) else s.entries[n].Dir?
  }

  ghost predicate NothingMarked(e: Entry) {
    e.Dir? ==> !e.info.modified && forall n :: n in e.entries ==> NothingMarked(e.entries[n])
  }

  lemma {:induction false} BringsUnmarked(s: Entry, c: Entry, d: Content)
    requires s.Dir? && c.Dir? && d.Dir? && Applicable(s, c, d) && NothingMarked(s)
    ensures BringsDir(s, c, d) <==> !BringsMarked(s, c, d)
    decreases s
  {
    hide Applicable, TakesSrc, GoesInside;
    forall n | n in s.entries && TakesSrc(s, c, n)
      ensures GoesInside(s, c, d, n) ==>
                && n in c.entries && c.entries[n].Dir? && n in d.entries && d.entries[n].Dir? && s.entries[n].Dir?
                && Applicable(s.entries[n], c.entries[n], d.entries[n])
                && (BringsDir(s.entries[n], c.entries[n], d.entries[n]) <==> !BringsMarked(s.entries[n], c.entries[n], d.entries[n]))
      ensures s.entries[n].Dir? <==> !AllMarked(s.entries[n])
    {
      if GoesInside(s, c, d, n) {
        MergedAt(s, c, d, n);
        InsideDirs(s, c, d, n);
        BringsUnmarked(s.entries[n], c.entries[n], d.entries[n]);
      }
    }
  }

  lemma {:induction false} ShownUnmarked(e: Entry, t: Stored)
    requires Shows(e, t)
    ensures NothingMarked(e)
  {
    if e.Dir? {
      forall n | n in e.entries ensures NothingMarked(e.entries[n]) {
        if n in t.entries {
          ShownUnmarked(e.entries[n], t.entries[n]);
        }
      }
    }
  }

  /** Merging a committed src into a tree in order, and a commit that gets
      through: the store has what memory has if and only if src brings in no
      directory. */
  lemma MergeOfCommitted(env: Env, before: Store, s: Entry, c: Entry, d: Entry, r: Entry, junk: nat, after: Store, r': Entry)
    requires IsMerge(s, c, d, r, junk) && Stands(before, s) && Ready(before, d) && CommitAsserts(r)
    requires ValidEnv(env) && AllValid(r) && Sized(env, r) && CommitsTo(env, r, before, r', after) && junk !in after
    ensures Applicable(s, c, ContentOf(d))
    ensures Ready(before, r) <==> !BringsDir(s, c, ContentOf(d))
    ensures Stands(after, r') <==> !BringsDir(s, c, ContentOf(d))
  {
    hide Reloads, Shows, IsMerge, Applicable, BringsMarked, BringsDir, AllValid, Sized, PartsStored, Gather, Dumped,
         FillsUnloaded, CommitAsserts;
    var t :| Shows(s, t) && Reloads(before, t);
    ShownUnmarked(s, t);
    MergedDirs(s, c, d, r, junk);
    MergeThenCommit(env, before, s, c, d, r, junk, after, r');
    MergedAsserts(before, s, c, d, r, junk);
    MergedReady(before, s, c, d, r, junk);
    BringsUnmarked(s, c, ContentOf(d));
  }

  // ------------------------------------------------------------------
  // Merge, commit, and open again.

  lemma AllLoadedAsserts(e: Entry)
    requires AllLoaded(e)
    ensures CommitAsserts(e)
  {
    forall p | HasDir(e, p) ensures At(e, p).info.loaded {
      AllLoadedAt(e, p);
    }
    AssertsWhere(e);
  }

  /** What two trees that are wholly loaded merge to is wholly loaded. */
  lemma MergedLoaded(s: Entry, c: Entry, d: Entry, r: Entry, junk: nat)
    requires IsMerge(s, c, d, r, junk) && AllLoaded(s) && AllLoaded(d)
    ensures AllLoaded(r)
  {
    hide Has, At, ContentOf, Merged, Compatible, AllLoaded;
    forall p | HasDir(r, p) ensures At(r, p).info.loaded {
      ForeignAt(s, c, d, r, junk, p);
      if HasDir(d, p) { LoadedDirAt(d, p); } else { LoadedDirAt(s, p); }
    }
    LoadedEverywhere(r);
  }

  lemma LoadedDirAt(e: Entry, p: Path)
    requires AllLoaded(e) && HasDir(e, p)
    ensures At(e, p).info.loaded
  {
    AllLoadedAt(e, p);
  }

  lemma {:induction false} LoadedEverywhere(e: Entry)
    requires forall p :: HasDir(e, p) ==> At(e, p).info.loaded
    ensures AllLoaded(e)
  {
    if e.Dir? {
      assert HasDir(e, []);
      forall n | n in e.entries ensures AllLoaded(e.entries[n]) {
        forall p | HasDir(e.entries[n], p) ensures At(e.entries[n], p).info.loaded {
          var q := [n] + p;
          assert q[0] == n && q[1..] == p;
          assert HasDir(e, q) && At(e, q) == At(e.entries[n], p);
        }
        LoadedEverywhere(e.entries[n]);
      }
    }
  }

  lemma RemovedContent(e: Entry)
    ensures IsPlaceholder(e) <==> ContentOf(e) == Leaf(RemovedC)
  {
  }

  /** After a merge in memory and a commit, the repository opened again finds
      exactly the paths of the three-way merge that are not marked removed, of
      the kind the merged tree has there and with the hash that commit gives. */
  lemma MergeAnswers(env: Env, before: Store, s: Entry, c: Entry, d: Entry, r: Entry, junk: nat, after: Store, r': Entry,
                     p: Path)
    requires IsMerge(s, c, d, r, junk) && AllLoaded(r) && Ready(before, s) && Ready(before, d)
    requires Applicable(s, c, ContentOf(d)) && BringsMarked(s, c, ContentOf(d)) && junk !in before
    requires ValidEnv(env) && AllValid(r) && Sized(env, r) && CommitsTo(env, r, before, r', after)
    ensures r'.Dir? && Loadable(after, r'.info.hash) && CanFind(after, Opened(after, r'.info.hash), [], p)
    ensures var m := Merged(s, c, ContentOf(d));
      var (q, y) := FindFrom(after, Opened(after, r'.info.hash), [], p);
      && (q.Found? ==> q.at == p && Has(y, p) && Has(r, p))
      && (q.Found? <==> Has(m, p) && At(m, p) != Leaf(RemovedC))
      && (q.Found? ==>
            && AllValid(At(r, p)) && KindOf(At(y, p)) == KindOf(At(r, p))
            && HashOf(At(y, p)) == HashAfter(env, At(r, p), p))
  {
    hide Ready, ContentOf, Merged, Applicable, BringsMarked, AllLoaded, FillsUnloaded, CommitAsserts, AllValid, Sized, Gather,
         Dumped, PartsStored, CanFind, FindFrom, HashAfter, Loadable, Has, At;
    AllLoadedAsserts(r);
    MergedAsserts(before, s, c, d, r, junk);
    MergedReady(before, s, c, d, r, junk);
    CommitAnswers(env, before, r, after, r', p);
    RootIsThere(r);
    FindInMemory(before, r, [], p);
    assert [] + p == p;
    ContentAt(r, p);
    if Has(r, p) { RemovedContent(At(r, p)); }
  }

  lemma RootIsThere(e: Entry)
    ensures Has(e, [])
  {
  }
}
