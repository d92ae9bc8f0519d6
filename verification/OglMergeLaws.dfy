/** What the merge is for: bringing in one side's changes, ignoring the side
    that made none, and the same result from either side. */
module OglMergeLaws {
  import opened OglTree
  import opened OglCodec
  import opened OglRepo
  import opened OglMerge

  /** The same names, kinds and hashes all the way down. */
  ghost predicate SameVersion(a: Entry, b: Entry) {
    && Alike(a, b)
    && (a.Dir? ==>
          && a.entries.Keys == b.entries.Keys
          && forall n :: n in a.entries ==> SameVersion(a.entries[n], b.entries[n]))
  }

  /** Two directories at the same place with one hash are one version. */
  ghost predicate HashesTell(a: Entry, b: Entry) {
    a.Dir? && b.Dir? ==>
      && (HashOf(a) == HashOf(b) ==> SameVersion(a, b))
      && forall n :: n in a.entries && n in b.entries ==> HashesTell(a.entries[n], b.entries[n])
  }

  lemma {:induction false} SameVersionContent(a: Entry, b: Entry)
    requires SameVersion(a, b)
    ensures ContentOf(a) == ContentOf(b)
  {
    if a.Dir? {
      forall n | n in a.entries ensures ContentOf(a.entries[n]) == ContentOf(b.entries[n]) {
        SameVersionContent(a.entries[n], b.entries[n]);
      }
      assert ContentOf(a).entries == ContentOf(b).entries;
    }
  }

  // ------------------------------------------------------------------
  // Where HashesTell comes from: one object store.

  lemma {:induction false} ShownTwice(a: Entry, b: Entry, t: Stored)
    requires Shows(a, t) && Shows(b, t) && AllLoaded(a) && AllLoaded(b) && NoPlaceholders(a) && NoPlaceholders(b)
    ensures SameVersion(a, b)
  {
    if a.Dir? {
      assert forall n :: n in a.entries <==> n in t.entries;
      assert forall n :: n in b.entries <==> n in t.entries;
      forall n | n in a.entries ensures SameVersion(a.entries[n], b.entries[n]) {
        ShownTwice(a.entries[n], b.entries[n], t.entries[n]);
      }
    }
  }

  /** Trees read from one store, whatever part of it, tell by their hashes. */
  lemma {:induction false} OneStoreTells(store: Store, a: Entry, t: Stored, b: Entry, u: Stored)
    requires Shows(a, t) && Shows(b, u) && Reloads(store, t) && Reloads(store, u)
    requires AllLoaded(a) && AllLoaded(b) && NoPlaceholders(a) && NoPlaceholders(b)
    ensures HashesTell(a, b)
  {
    hide DecodeDir;
    if a.Dir? && b.Dir? {
      if HashOf(a) == HashOf(b) {
        HashDeterminesTree(store, t, u);
        ShownTwice(a, b, t);
      }
      forall n | n in a.entries && n in b.entries ensures HashesTell(a.entries[n], b.entries[n]) {
        assert n in t.entries && n in u.entries;
        OneStoreTells(store, a.entries[n], t.entries[n], b.entries[n], u.entries[n]);
      }
    }
  }

  // ------------------------------------------------------------------
  // Laws.

  /** No change in src: dst stays as it is. */
  lemma MergeOfNoChange(s: Entry, c: Entry, d: Entry)
    requires s.Dir? && c.Dir? && d.Dir? && SameVersion(s, c)
    ensures ContentOf(d).Dir?
    ensures Compatible(s, c, d) && Merged(s, c, ContentOf(d)) == ContentOf(d)
  {
    forall n ensures OpOf(s, c, n) == Same {
    }
    assert Merged(s, c, ContentOf(d)).entries == ContentOf(d).entries;
    NoInfoContent(d);
  }

  /** What merging says of one name. */
  ghost predicate SameAt(x: Content, y: Content, n: Name) {
    x.Dir? && y.Dir? && (n in x.entries <==> n in y.entries) && (n in x.entries ==> x.entries[n] == y.entries[n])
  }

  /** dst has not changed, and src and common tell by their hashes. */
  ghost predicate Unchanged(s: Entry, c: Entry, d: Entry) {
    SameVersion(d, c) && HashesTell(s, c) && NoPlaceholders(c)
  }

  lemma UnchangedBelow(s: Entry, c: Entry, d: Entry, n: Name)
    requires s.Dir? && c.Dir? && d.Dir? && Unchanged(s, c, d) && n in c.entries
    ensures n in d.entries && SameVersion(d.entries[n], c.entries[n]) && !IsPlaceholder(c.entries[n])
    ensures n in s.entries ==> HashesTell(s.entries[n], c.entries[n])
    ensures n in s.entries && s.entries[n].Dir? && c.entries[n].Dir? ==> Unchanged(s.entries[n], c.entries[n], d.entries[n])
  {
    assert NoPlaceholders(c.entries[n]);
  }

  lemma UnchangedNames(s: Entry, c: Entry, d: Entry, n: Name)
    requires s.Dir? && c.Dir? && d.Dir? && Unchanged(s, c, d)
    ensures n in d.entries <==> n in c.entries
  {
  }

  /** No change in dst: it becomes src, and nothing can be in conflict. */
  lemma {:induction false} MergeIntoUnchanged(s: Entry, c: Entry, d: Entry)
    requires s.Dir? && c.Dir? && d.Dir? && Unchanged(s, c, d)
    ensures ContentOf(d).Dir?
    ensures Compatible(s, c, d) && Merged(s, c, ContentOf(d)) == ContentOf(s)
    decreases s, 2
  {
    hide SameVersion, HashesTell, NoPlaceholders, ContentOf, Merged, CheckOne, Unchanged;
    ContentKind(d);
    ContentKind(s);
    var m := Merged(s, c, ContentOf(d));
    forall n ensures SameAt(m, ContentOf(s), n) {
      UnchangedName(s, c, d, n);
    }
    forall n | n in s.entries || n in c.entries
      ensures Passes(CheckOne(s, c, d, n))
      ensures CheckOne(s, c, d, n) == Descend ==>
                && n in s.entries && n in c.entries && n in d.entries
                && s.entries[n].Dir? && c.entries[n].Dir? && d.entries[n].Dir?
                && Compatible(s.entries[n], c.entries[n], d.entries[n])
    {
      UnchangedPasses(s, c, d, n);
    }
    MergedInfo(s, c, ContentOf(d));
    NoInfoContent(s);
    SameEverywhere(m, ContentOf(s));
  }

  lemma UnchangedPasses(s: Entry, c: Entry, d: Entry, n: Name)
    requires s.Dir? && c.Dir? && d.Dir? && Unchanged(s, c, d)
    ensures Passes(CheckOne(s, c, d, n))
    ensures CheckOne(s, c, d, n) == Descend ==>
              && n in s.entries && n in c.entries && n in d.entries
              && s.entries[n].Dir? && c.entries[n].Dir? && d.entries[n].Dir?
              && Compatible(s.entries[n], c.entries[n], d.entries[n])
    decreases s, 0
  {
    hide HashesTell, NoPlaceholders, ContentOf, Merged, Unchanged;
    UnchangedNames(s, c, d, n);
    if n in c.entries {
      UnchangedBelow(s, c, d, n);
      if n in s.entries && s.entries[n].Dir? && c.entries[n].Dir? {
        MergeIntoUnchanged(s.entries[n], c.entries[n], d.entries[n]);
      }
    }
  }

  lemma UnchangedName(s: Entry, c: Entry, d: Entry, n: Name)
    requires s.Dir? && c.Dir? && d.Dir? && Unchanged(s, c, d)
    ensures ContentOf(d).Dir? && SameAt(Merged(s, c, ContentOf(d)), ContentOf(s), n)
    decreases s, 0
  {
    hide HashesTell, NoPlaceholders, ContentOf, Merged, Unchanged;
    ShallowContent(s);
    ShallowContent(d);
    UnchangedNames(s, c, d, n);
    MergedName(s, c, ContentOf(d), n);
    if n in c.entries {
      UnchangedBelow(s, c, d, n);
      SameVersionContent(d.entries[n], c.entries[n]);
      ContentKind(d.entries[n]);
      if n in s.entries {
        if Alike(s.entries[n], c.entries[n]) {
          AlikeContent(s.entries[n], c.entries[n]);
        } else if s.entries[n].Dir? && c.entries[n].Dir? {
          MergeIntoUnchanged(s.entries[n], c.entries[n], d.entries[n]);
        }
      }
    }
  }

  lemma AlikeContent(a: Entry, b: Entry)
    requires Alike(a, b) && HashesTell(a, b)
    ensures ContentOf(a) == ContentOf(b)
  {
    if a.Dir? {
      SameVersionContent(a, b);
    }
  }

  /** src's changes and dst's, each checked against the other, can be merged
      from either side with one result. */
  lemma {:induction false} MergeCommutes(s: Entry, c: Entry, d: Entry)
    requires s.Dir? && c.Dir? && d.Dir? && NoPlaceholders(c)
    requires Compatible(s, c, d) && Compatible(d, c, s)
    requires HashesTell(s, c) && HashesTell(d, c)
    ensures ContentOf(d).Dir? && ContentOf(s).Dir?
    ensures Merged(s, c, ContentOf(d)) == Merged(d, c, ContentOf(s))
    decreases s, 2
  {
    hide Compatible, CheckOne, HashesTell, ContentOf, Merged, NoPlaceholders;
    ContentKind(s);
    ContentKind(d);
    var x, y := Merged(s, c, ContentOf(d)), Merged(d, c, ContentOf(s));
    forall n ensures SameAt(x, y, n) {
      NameCommutes(s, c, d, n);
    }
    MergedInfo(s, c, ContentOf(d));
    MergedInfo(d, c, ContentOf(s));
    SameEverywhere(x, y);
  }

  lemma SameEverywhere(x: Content, y: Content)
    requires x.Dir? && y.Dir? && x.info == y.info && forall n :: SameAt(x, y, n)
    ensures x == y
  {
    assert forall n :: n in x.entries ==> SameAt(x, y, n);
    assert forall n :: n in y.entries ==> SameAt(x, y, n);
    assert x.entries == y.entries;
  }

  lemma MergedInfo(s: Entry, c: Entry, x: Content)
    requires s.Dir? && c.Dir? && x.Dir?
    ensures Merged(s, c, x).Dir? && Merged(s, c, x).info == NoInfo
  {
  }

  /** A name of the merged directory, by cases. */
  lemma MergedName(s: Entry, c: Entry, x: Content, n: Name)
    requires s.Dir? && c.Dir? && x.Dir?
    ensures var m := Merged(s, c, x);
      && m.Dir?
      && (n in m.entries <==> TakesSrc(s, c, n) || (n in x.entries && OpOf(s, c, n) == Same))
      && (n in m.entries && OpOf(s, c, n) == Same ==> m.entries[n] == x.entries[n])
      && (TakesSrc(s, c, n) && (n !in c.entries || !c.entries[n].Dir? || !s.entries[n].Dir?) ==>
            m.entries[n] == ContentOf(s.entries[n]))
      && (TakesSrc(s, c, n) && n in c.entries && c.entries[n].Dir? && s.entries[n].Dir? && n in x.entries && x.entries[n].Dir? ==>
            m.entries[n] == Merged(s.entries[n], c.entries[n], x.entries[n]))
  {
  }

  lemma CheckedName(s: Entry, c: Entry, d: Entry, n: Name)
    requires s.Dir? && c.Dir? && d.Dir? && Compatible(s, c, d)
    ensures Passes(CheckOne(s, c, d, n))
    ensures CheckOne(s, c, d, n) == Descend ==>
              && n in s.entries && n in c.entries && n in d.entries
              && s.entries[n].Dir? && c.entries[n].Dir? && d.entries[n].Dir?
              && Compatible(s.entries[n], c.entries[n], d.entries[n])
  {
    OnlyDifferencesMatter(s, c, d, n);
  }

  lemma ToldBelow(s: Entry, c: Entry, n: Name)
    requires s.Dir? && c.Dir? && HashesTell(s, c) && NoPlaceholders(c) && n in c.entries
    ensures NoPlaceholders(c.entries[n])
    ensures n in s.entries ==> HashesTell(s.entries[n], c.entries[n])
  {
  }

  /** Both sides hold the name, and common does. */
  lemma SharedNameCommutes(s: Entry, c: Entry, d: Entry, n: Name)
    requires s.Dir? && c.Dir? && d.Dir? && NoPlaceholders(c)
    requires Compatible(s, c, d) && Compatible(d, c, s) && HashesTell(s, c) && HashesTell(d, c)
    requires n in s.entries && n in c.entries && n in d.entries
    ensures ContentOf(d).Dir? && ContentOf(s).Dir?
    ensures SameAt(Merged(s, c, ContentOf(d)), Merged(d, c, ContentOf(s)), n)
    decreases s, 0
  {
    hide Compatible, HashesTell, ContentOf, Merged, NoPlaceholders;
    ShallowContent(s);
    ShallowContent(d);
    MergedName(s, c, ContentOf(d), n);
    MergedName(d, c, ContentOf(s), n);
    ToldBelow(s, c, n);
    ToldBelow(d, c, n);
    var a, b, e := s.entries[n], c.entries[n], d.entries[n];
    ContentKind(a);
    ContentKind(e);
    if Alike(a, b) && Alike(e, b) {
      AlikeContent(a, b);
      AlikeContent(e, b);
    } else if Alike(e, b) {
      OneSideChanged(a, b, e);
    } else if Alike(a, b) {
      OneSideChanged(e, b, a);
    } else {
      CheckedName(s, c, d, n);
      CheckedName(d, c, s, n);
      MergeCommutes(a, b, e);
    }
  }

  lemma OneSideChanged(a: Entry, b: Entry, e: Entry)
    requires Alike(e, b) && HashesTell(e, b) && HashesTell(a, b) && NoPlaceholders(b)
    ensures a.Dir? && b.Dir? ==> e.Dir? && ContentOf(e).Dir? && Merged(a, b, ContentOf(e)) == ContentOf(a)
  {
    if a.Dir? && b.Dir? {
      MergeIntoUnchanged(a, b, e);
    }
  }

  lemma NameCommutes(s: Entry, c: Entry, d: Entry, n: Name)
    requires s.Dir? && c.Dir? && d.Dir? && NoPlaceholders(c)
    requires Compatible(s, c, d) && Compatible(d, c, s) && HashesTell(s, c) && HashesTell(d, c)
    ensures ContentOf(d).Dir? && ContentOf(s).Dir?
    ensures SameAt(Merged(s, c, ContentOf(d)), Merged(d, c, ContentOf(s)), n)
    decreases s, 1
  {
    hide Compatible, HashesTell, ContentOf, Merged, NoPlaceholders;
    if n in s.entries && n in c.entries && n in d.entries {
      SharedNameCommutes(s, c, d, n);
    } else {
      ShallowContent(s);
      ShallowContent(d);
      MergedName(s, c, ContentOf(d), n);
      MergedName(d, c, ContentOf(s), n);
      CheckedName(s, c, d, n);
      CheckedName(d, c, s, n);
    }
  }

  // ------------------------------------------------------------------
  // What becomes of dst's changes.

  /** A name that src did not change is as in dst, whatever dst did with it.  A
      name both changed is a directory in common and in dst, and dst's changes
      inside go on counting if and only if src keeps it a directory: otherwise
      they are discarded, although no conflict is reported. */
  lemma MergeKeepsOrDiscards(s: Entry, c: Entry, d: Entry, n: Name)
    requires s.Dir? && c.Dir? && d.Dir? && Compatible(s, c, d)
    ensures ContentOf(d).Dir?
    ensures var m := Merged(s, c, ContentOf(d));
      && (OpOf(s, c, n) == Same ==> SameAt(m, ContentOf(d), n))
      && (OpOf(s, c, n) != Same && OpOf(d, c, n) != Same ==>
            && n in s.entries && n in c.entries && n in d.entries && n in m.entries
            && c.entries[n].Dir? && d.entries[n].Dir?
            && (if s.entries[n].Dir? then
                  && Compatible(s.entries[n], c.entries[n], d.entries[n]) && ContentOf(d.entries[n]).Dir?
                  && m.entries[n] == Merged(s.entries[n], c.entries[n], ContentOf(d.entries[n]))
                else m.entries[n] == ContentOf(s.entries[n]) && m.entries[n].Leaf?))
  {
    hide Compatible, ContentOf, Merged;
    ShallowContent(d);
    MergedName(s, c, ContentOf(d), n);
    CheckedName(s, c, d, n);
    if n in d.entries { ContentKind(d.entries[n]); }
    if n in s.entries { ContentKind(s.entries[n]); }
  }

  /** A directory that neither src nor common has loaded is not merged, whatever
      its hashes say: dst keeps what it has. */
  lemma UnloadedIsIgnored(s: Entry, c: Entry, d: Entry, n: Name)
    requires s.Dir? && c.Dir? && d.Dir? && Tidy(s) && Tidy(c)
    requires n in s.entries && n in c.entries && n in d.entries
    requires s.entries[n].Dir? && c.entries[n].Dir? && d.entries[n].Dir?
    requires !s.entries[n].info.loaded && !c.entries[n].info.loaded
    ensures Passes(CheckOne(s, c, d, n)) && Compatible(s.entries[n], c.entries[n], d.entries[n])
    ensures ContentOf(d).Dir? && SameAt(Merged(s, c, ContentOf(d)), ContentOf(d), n)
  {
    ShallowContent(d);
    ContentKind(d.entries[n]);
    MergedName(s, c, ContentOf(d), n);
    NoNamesNoMerge(s.entries[n], c.entries[n], d.entries[n]);
  }

  lemma NoNamesNoMerge(s: Entry, c: Entry, d: Entry)
    requires s.Dir? && c.Dir? && d.Dir? && s.entries == map[] && c.entries == map[]
    ensures Compatible(s, c, d) && ContentOf(d).Dir? && Merged(s, c, ContentOf(d)) == ContentOf(d)
  {
    hide ContentOf, Merged;
    ContentKind(d);
    NoInfoContent(d);
    var m := Merged(s, c, ContentOf(d));
    forall n ensures SameAt(m, ContentOf(d), n) {
      MergedName(s, c, ContentOf(d), n);
    }
    MergedInfo(s, c, ContentOf(d));
    SameEverywhere(m, ContentOf(d));
  }
}
