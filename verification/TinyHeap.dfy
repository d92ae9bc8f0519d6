/** All the chunks of the allocator: how they tile the memory, how they are
    linked into lists, and which blocks are handed out from them. */
module TinyHeap {
  import opened TinyChunk

  /** The descriptors by their addresses. */
  type Chunks = map<Addr, Chunk>

  /** Where a block comes from: a slot, or a large chunk as a whole. */
  datatype Place = Slot(chunk: Addr, k: nat) | Whole(chunk: Addr)

  // ------------------------------------------------------------------
  // Memory.

  ghost predicate Shaped(chunks: Chunks) {
    NULL !in chunks && forall a :: a in chunks ==> ValidSmall(chunks[a]) || ValidLarge(chunks[a])
  }

  ghost predicate Apart(c: Chunk, d: Chunk) {
    c.begin + c.bytes <= d.begin || d.begin + d.bytes <= c.begin
  }

  ghost predicate Tiled(chunks: Chunks, start: Addr, nextFree: Addr) {
    && 0 < start <= nextFree
    && (forall a :: a in chunks ==> start <= chunks[a].begin && chunks[a].begin + chunks[a].bytes <= nextFree)
    && (forall a, b :: a in chunks && b in chunks && a != b ==> Apart(chunks[a], chunks[b]))
  }

  ghost predicate Placed(chunks: Chunks, s: Place) {
    s.chunk in chunks &&
    match s
    case Slot(a, k) => ValidSmall(chunks[a]) && k < Max(chunks[a]) && Used(chunks[a].usebits, k)
    case Whole(a) => ValidLarge(chunks[a])
  }

  function AddrOf(c: Chunk, s: Place): Addr
    requires s.Slot? ==> Small(c)
  {
    if s.Slot? then SlotAddr(c, s.k) else c.begin
  }

  ghost predicate PlacedAt(chunks: Chunks, s: Place, p: Addr) {
    Placed(chunks, s) && p == AddrOf(chunks[s.chunk], s)
  }

  ghost predicate DescriptorIn(chunks: Chunks, owner: map<Addr, Place>, a: Addr) {
    a in owner && owner[a].Slot? && owner[a].chunk in chunks && chunks[owner[a].chunk].elmSize == DESC_SIZE
  }

  /** The blocks in use are the set bits and the large chunks, and every
      descriptor is one of them. */
  ghost predicate Owned(chunks: Chunks, owner: map<Addr, Place>) {
    && (forall s, p :: PlacedAt(chunks, s, p) <==> p in owner && owner[p] == s)
    && (forall a :: a in chunks ==> DescriptorIn(chunks, owner, a))
  }

  /** The blocks in use are the user's and the descriptors, and each of the
      user's holds what was asked for. */
  ghost predicate Lives(chunks: Chunks, owner: map<Addr, Place>, live: map<Addr, nat>) {
    && live.Keys !! chunks.Keys && owner.Keys == live.Keys + chunks.Keys
    && (forall p :: p in live ==> owner[p].chunk in chunks && live[p] <= chunks[owner[p].chunk].elmSize)
  }

  ghost predicate Disjoint(p: Addr, n: nat, q: Addr, m: nat) {
    p + n <= q || q + m <= p
  }

  /** A block in use lies inside its chunk, behind the bitmap if there is one. */
  lemma BlockRange(chunks: Chunks, s: Place)
    requires Shaped(chunks) && Placed(chunks, s)
    ensures var c := chunks[s.chunk];
      && c.begin <= AddrOf(c, s) && AddrOf(c, s) + c.elmSize <= c.begin + c.bytes && c.elmSize > 0
      && (s.Slot? ==> c.begin + First(c) <= AddrOf(c, s))
  {
    hide Used, First, Max, CountClear, MaxElements, FirstElement, SlotAddr;
    if s.Slot? {
      SlotRange(chunks[s.chunk], s.k);
    }
  }

  lemma OwnerPlaced(chunks: Chunks, owner: map<Addr, Place>, p: Addr)
    requires Owned(chunks, owner) && p in owner
    ensures PlacedAt(chunks, owner[p], p)
  {
  }

  lemma PlacesApart(chunks: Chunks, s: Place, t: Place)
    requires Shaped(chunks) && Placed(chunks, s) && Placed(chunks, t) && s != t
    requires s.chunk != t.chunk ==> Apart(chunks[s.chunk], chunks[t.chunk])
    ensures var c, d := chunks[s.chunk], chunks[t.chunk]; Disjoint(AddrOf(c, s), c.elmSize, AddrOf(d, t), d.elmSize)
  {
    hide Used, First, Max, CountClear, MaxElements, FirstElement, SlotAddr, Shaped;
    BlockRange(chunks, s);
    BlockRange(chunks, t);
    if s.chunk == t.chunk {
      SmallOrLarge(chunks[s.chunk]);
      if s.Slot? && t.Slot? {
        var c := chunks[s.chunk];
        if s.k < t.k { SlotsApart(c, s.k, t.k); } else { SlotsApart(c, t.k, s.k); }
      }
    }
  }

  lemma BlocksApart(chunks: Chunks, start: Addr, nextFree: Addr, owner: map<Addr, Place>, p: Addr, q: Addr)
    requires Shaped(chunks) && Tiled(chunks, start, nextFree) && Owned(chunks, owner)
    requires p in owner && q in owner && p != q
    ensures owner[p].chunk in chunks && owner[q].chunk in chunks
    ensures Disjoint(p, chunks[owner[p].chunk].elmSize, q, chunks[owner[q].chunk].elmSize)
  {
    hide Shaped, Owned, Placed, AddrOf, Apart, Disjoint;
    OwnerPlaced(chunks, owner, p);
    OwnerPlaced(chunks, owner, q);
    PlacedIn(chunks, owner[p]);
    PlacedIn(chunks, owner[q]);
    PlacesApart(chunks, owner[p], owner[q]);
  }

  lemma PlacedIn(chunks: Chunks, s: Place)
    requires Placed(chunks, s)
    ensures s.chunk in chunks
  {
  }

  lemma SmallOrLarge(c: Chunk)
    ensures !(Small(c) && LargeShape(c.elmSize, c.bytes))
  {
  }

  lemma BitmapApart(chunks: Chunks, start: Addr, nextFree: Addr, owner: map<Addr, Place>, p: Addr, a: Addr)
    requires Shaped(chunks) && Tiled(chunks, start, nextFree) && Owned(chunks, owner)
    requires p in owner && a in chunks && Small(chunks[a])
    ensures owner[p].chunk in chunks
    ensures Disjoint(p, chunks[owner[p].chunk].elmSize, chunks[a].begin, First(chunks[a]))
  {
    hide Owned, Shaped, Used, First, Max, CountClear, MaxElements, FirstElement, SlotAddr;
    OwnerPlaced(chunks, owner, p);
    var s := owner[p];
    BlockRange(chunks, s);
    FirstInside(chunks[a]);
    SmallOrLarge(chunks[a]);
    assert s.chunk != a ==> Apart(chunks[s.chunk], chunks[a]);
  }

  lemma FirstInside(c: Chunk)
    requires Small(c)
    ensures First(c) <= c.bytes
  {
    SlotsFit(c.elmSize, c.bytes);
  }

  /** A live block lies inside the memory taken so far, and is apart from every
      other live block, every descriptor and every bitmap. */
  lemma LiveBlocksAreSafe(chunks: Chunks, start: Addr, nextFree: Addr, owner: map<Addr, Place>, live: map<Addr, nat>, p: Addr)
    requires Shaped(chunks) && Tiled(chunks, start, nextFree) && Owned(chunks, owner) && Lives(chunks, owner, live)
    requires p in live
    ensures start <= p && p + live[p] <= nextFree
    ensures forall q :: q in live && q != p ==> Disjoint(p, live[p], q, live[q])
    ensures forall a :: a in chunks ==> Disjoint(p, live[p], a, DESC_SIZE)
    ensures forall a :: a in chunks && Small(chunks[a]) ==> Disjoint(p, live[p], chunks[a].begin, First(chunks[a]))
  {
    hide First, Max, SlotAddr, Small, ValidSmall, ValidLarge;
    assert PlacedAt(chunks, owner[p], p);
    BlockRange(chunks, owner[p]);
    forall q | q in live && q != p ensures Disjoint(p, live[p], q, live[q]) {
      BlocksApart(chunks, start, nextFree, owner, p, q);
    }
    forall a | a in chunks ensures Disjoint(p, live[p], a, DESC_SIZE) {
      assert DescriptorIn(chunks, owner, a);
      BlocksApart(chunks, start, nextFree, owner, p, a);
    }
    forall a | a in chunks && Small(chunks[a]) ensures Disjoint(p, live[p], chunks[a].begin, First(chunks[a])) {
      BitmapApart(chunks, start, nextFree, owner, p, a);
    }
  }

  /** So are the descriptors from one another and from the bitmaps, although
      they lie in slots themselves. */
  lemma DescriptorsAreSafe(chunks: Chunks, start: Addr, nextFree: Addr, owner: map<Addr, Place>, a: Addr, b: Addr)
    requires Shaped(chunks) && Tiled(chunks, start, nextFree) && Owned(chunks, owner)
    requires a in chunks && b in chunks
    ensures a != b ==> Disjoint(a, DESC_SIZE, b, DESC_SIZE)
    ensures Small(chunks[b]) ==> Disjoint(a, DESC_SIZE, chunks[b].begin, First(chunks[b]))
  {
    hide First, Max, SlotAddr, Small, ValidSmall, ValidLarge;
    assert DescriptorIn(chunks, owner, a) && DescriptorIn(chunks, owner, b);
    if a != b {
      BlocksApart(chunks, start, nextFree, owner, a, b);
    }
    if Small(chunks[b]) {
      BitmapApart(chunks, start, nextFree, owner, a, b);
    }
  }

  /** Every block in use begins before the bump pointer. */
  lemma OwnedBelow(chunks: Chunks, start: Addr, nextFree: Addr, owner: map<Addr, Place>, p: Addr)
    requires Shaped(chunks) && Tiled(chunks, start, nextFree) && Owned(chunks, owner) && p in owner
    ensures start <= p < nextFree
  {
    hide First, Max, SlotAddr, Used, CountClear;
    assert PlacedAt(chunks, owner[p], p);
    BlockRange(chunks, owner[p]);
  }

  // ------------------------------------------------------------------
  // Lists.

  predicate Distinct(s: seq<Addr>) {
    forall i, j :: 0 <= i < j < |s| ==> s[i] != s[j]
  }

  function HeadOf(s: seq<Addr>): Addr {
    if s == [] then NULL else s[0]
  }

  function NextIn(s: seq<Addr>, i: nat): Addr {
    if i + 1 < |s| then s[i + 1] else NULL
  }

  /** s is the list from head along the next pointers. */
  ghost predicate Linked(chunks: Chunks, head: Addr, s: seq<Addr>) {
    && Distinct(s) && head == HeadOf(s) && NULL !in s
    && forall i :: 0 <= i < |s| ==> s[i] in chunks && chunks[s[i]].next == NextIn(s, i)
  }

  function SumFree(chunks: Chunks, s: seq<Addr>): nat
    requires forall i :: 0 <= i < |s| ==> s[i] in chunks
  {
    if s == [] then 0 else chunks[s[0]].nfree + SumFree(chunks, s[1..])
  }

  lemma {:induction false} SumFreeSame(chunks: Chunks, chunks': Chunks, s: seq<Addr>)
    requires forall i :: 0 <= i < |s| ==> s[i] in chunks && s[i] in chunks' && chunks[s[i]].nfree == chunks'[s[i]].nfree
    ensures SumFree(chunks, s) == SumFree(chunks', s)
  {
    if s != [] {
      SumFreeSame(chunks, chunks', s[1..]);
    }
  }

  lemma {:induction false} SumFreeZero(chunks: Chunks, s: seq<Addr>)
    requires forall i :: 0 <= i < |s| ==> s[i] in chunks && chunks[s[i]].nfree == 0
    ensures SumFree(chunks, s) == 0
  {
    if s != [] {
      SumFreeZero(chunks, s[1..]);
    }
  }

  lemma {:induction false} SumFreeChange(chunks: Chunks, s: seq<Addr>, a: Addr, c: Chunk)
    requires Distinct(s) && a in s && forall i :: 0 <= i < |s| ==> s[i] in chunks
    ensures SumFree(chunks[a := c], s) + chunks[a].nfree == SumFree(chunks, s) + c.nfree
  {
    if s[0] == a {
      SumFreeSame(chunks, chunks[a := c], s[1..]);
    } else {
      SumFreeChange(chunks, s[1..], a, c);
    }
  }

  /** The list with a gone. */
  function Without(s: seq<Addr>, a: Addr): seq<Addr> {
    if s == [] then [] else if s[0] == a then s[1..] else [s[0]] + Without(s[1..], a)
  }

  function Fronted(s: seq<Addr>, a: Addr): seq<Addr> {
    [a] + Without(s, a)
  }

  lemma {:induction false} WithoutAt(s: seq<Addr>, i: nat)
    requires Distinct(s) && i < |s|
    ensures Without(s, s[i]) == s[..i] + s[i + 1..]
  {
    if i > 0 {
      WithoutAt(s[1..], i - 1);
      assert s[..i] == [s[0]] + s[1..][..i - 1];
    }
  }

  lemma {:induction false} WithoutNone(s: seq<Addr>, a: Addr)
    requires a !in s
    ensures Without(s, a) == s
  {
    if s != [] {
      WithoutNone(s[1..], a);
    }
  }

  /** Moving to the front is a permutation. */
  lemma FrontedPermutes(s: seq<Addr>, a: Addr)
    requires Distinct(s) && a in s
    ensures multiset(Fronted(s, a)) == multiset(s) && Distinct(Fronted(s, a))
    ensures forall x :: x in Fronted(s, a) <==> x in s
  {
    hide Distinct, Without;
    var i :| 0 <= i < |s| && s[i] == a;
    WithoutAt(s, i);
    assert s == s[..i] + [a] + s[i + 1..];
    MembersSwap(s[..i], a, s[i + 1..]);
    SameMembers(Fronted(s, a), s);
  }

  lemma MembersSwap(pre: seq<Addr>, a: Addr, post: seq<Addr>)
    ensures multiset([a] + (pre + post)) == multiset(pre + [a] + post)
    ensures Distinct(pre + [a] + post) ==> Distinct([a] + (pre + post))
  {
    var s, f := pre + [a] + post, [a] + (pre + post);
    if Distinct(s) {
      forall i, j | 0 <= i < j < |f| ensures f[i] != f[j] {
        var k, l := if i == 0 then |pre| else if i <= |pre| then i - 1 else i, if j <= |pre| then j - 1 else j;
        assert f[i] == s[k] && f[j] == s[l];
        AllDiffer(s, k, l);
      }
    }
  }

  lemma SameMembers(f: seq<Addr>, s: seq<Addr>)
    requires multiset(f) == multiset(s)
    ensures forall x :: x in f <==> x in s
  {
    forall x ensures x in f <==> x in s {
      assert x in f <==> x in multiset(f);
      assert x in s <==> x in multiset(s);
    }
  }

  lemma SumFreeFronted(chunks: Chunks, s: seq<Addr>, a: Addr)
    requires Distinct(s) && a in s && forall i :: 0 <= i < |s| ==> s[i] in chunks
    ensures forall i :: 0 <= i < |Fronted(s, a)| ==> Fronted(s, a)[i] in chunks
    ensures SumFree(chunks, Fronted(s, a)) == SumFree(chunks, s)
  {
    FrontedPermutes(s, a);
    forall i | 0 <= i < |Fronted(s, a)| ensures Fronted(s, a)[i] in chunks {
      assert Fronted(s, a)[i] in s;
    }
    SumFreeWithout(chunks, s, a);
    assert Fronted(s, a)[1..] == Without(s, a);
  }

  lemma {:induction false} SumFreeWithout(chunks: Chunks, s: seq<Addr>, a: Addr)
    requires a in s && forall i :: 0 <= i < |s| ==> s[i] in chunks
    ensures forall i :: 0 <= i < |Without(s, a)| ==> Without(s, a)[i] in chunks
    ensures SumFree(chunks, Without(s, a)) + chunks[a].nfree == SumFree(chunks, s)
  {
    if s[0] != a {
      SumFreeWithout(chunks, s[1..], a);
      assert Without(s, a)[1..] == Without(s[1..], a);
    }
  }

  /** Only next pointers differ. */
  ghost predicate Relinked(chunks: Chunks, chunks': Chunks) {
    chunks'.Keys == chunks.Keys && forall a :: a in chunks ==> chunks'[a] == chunks[a].(next := chunks'[a].next)
  }

  function SetNext(chunks: Chunks, a: Addr, next: Addr): Chunks
    requires a in chunks
  {
    chunks[a := chunks[a].(next := next)]
  }

  lemma LinkedElsewhere(chunks: Chunks, chunks': Chunks, head: Addr, s: seq<Addr>)
    requires Linked(chunks, head, s)
    requires forall a :: a in s ==> a in chunks' && chunks'[a].next == chunks[a].next
    ensures Linked(chunks', head, s)
  {
    forall i | 0 <= i < |s| ensures s[i] in chunks' && chunks'[s[i]].next == NextIn(s, i) {
      assert s[i] in s;
    }
  }

  /** A new head. */
  lemma FrontNew(chunks: Chunks, head: Addr, s: seq<Addr>, a: Addr)
    requires Linked(chunks, head, s) && a in chunks && a !in s && a != NULL
    ensures Linked(SetNext(chunks, a, head), a, [a] + s)
  {
    hide Distinct;
    LinkedDistinct(chunks, head, s);
    var f, c := [a] + s, SetNext(chunks, a, head);
    forall i | 0 <= i < |f| ensures f[i] in c && c[f[i]].next == NextIn(f, i) {
      if i > 0 { assert f[i] == s[i - 1] && NextIn(f, i) == NextIn(s, i - 1) && s[i - 1] in s; }
    }
    DistinctMore(s, a);
  }

  lemma DistinctMore(s: seq<Addr>, a: Addr)
    requires Distinct(s) && a !in s
    ensures Distinct([a] + s)
  {
  }

  /** Unlinking one and making it the head. */
  lemma FrontMoved(chunks: Chunks, head: Addr, s: seq<Addr>, i: nat)
    requires Linked(chunks, head, s) && 0 < i < |s|
    ensures s[i] in chunks && s[i - 1] in chunks
    ensures Linked(SetNext(SetNext(chunks, s[i - 1], chunks[s[i]].next), s[i], head), s[i], Fronted(s, s[i]))
  {
    hide Distinct;
    var a, prev := s[i], s[i - 1];
    var c := SetNext(SetNext(chunks, prev, chunks[a].next), a, head);
    WithoutAt(s, i);
    var f := Fronted(s, a);
    assert f == [a] + (s[..i] + s[i + 1..]);
    FrontedPermutes(s, a);
    forall j | 0 <= j < |f| ensures f[j] in c && c[f[j]].next == NextIn(f, j) {
      FrontedNext(s, i, j);
      AllDiffer(s, i, if j <= i then j - 1 else j);
      AllDiffer(s, i - 1, if j <= i then j - 1 else j);
    }
  }

  lemma AllDiffer(s: seq<Addr>, i: nat, j: int)
    requires Distinct(s) && i < |s|
    ensures 0 <= j < |s| && j != i ==> s[j] != s[i]
  {
  }

  lemma FrontedNext(s: seq<Addr>, i: nat, j: nat)
    requires Distinct(s) && 0 < i < |s| && j < |s|
    ensures var f := Fronted(s, s[i]);
      && |f| == |s|
      && f[j] == (if j == 0 then s[i] else if j <= i then s[j - 1] else s[j])
      && NextIn(f, j) == (if j == 0 then s[0] else if j == i then NextIn(s, i) else NextIn(s, if j < i then j - 1 else j))
  {
    WithoutAt(s, i);
    assert Fronted(s, s[i]) == [s[i]] + (s[..i] + s[i + 1..]);
  }

  // ------------------------------------------------------------------
  // The sorted list of large chunks.

  ghost predicate SortedBySize(chunks: Chunks, s: seq<Addr>) {
    && (forall i :: 0 <= i < |s| ==> s[i] in chunks)
    && (forall i, j :: 0 <= i < j < |s| ==> chunks[s[i]].elmSize <= chunks[s[j]].elmSize)
  }

  /** i is the first place whose chunk is not smaller than e. */
  ghost predicate IsPlace(chunks: Chunks, s: seq<Addr>, e: nat, i: nat)
    requires forall k :: 0 <= k < |s| ==> s[k] in chunks
  {
    i <= |s| && (forall k :: 0 <= k < i ==> chunks[s[k]].elmSize < e) && (i < |s| ==> chunks[s[i]].elmSize >= e)
  }

  /** The pointers put_large writes: at the end of a list it leaves the chunk's
      own next pointer as it was. */
  function PutSorted(chunks: Chunks, s: seq<Addr>, i: nat, a: Addr): Chunks
    requires a in chunks && i <= |s| && forall k :: 0 <= k < |s| ==> s[k] in chunks
  {
    var c := if i < |s| then SetNext(chunks, a, s[i]) else if s == [] then SetNext(chunks, a, NULL) else chunks;
    if i > 0 then SetNext(c, s[i - 1], a) else c
  }

  function Inserted(s: seq<Addr>, i: nat, a: Addr): seq<Addr>
    requires i <= |s|
  {
    s[..i] + [a] + s[i..]
  }

  /** The insertion keeps the list sorted, and keeps it a list exactly when it
      is not at the end of a list, or the chunk comes without a successor. */
  lemma SortedInsertLinks(chunks: Chunks, head: Addr, s: seq<Addr>, i: nat, a: Addr)
    requires Linked(chunks, head, s) && SortedBySize(chunks, s)
    requires a in chunks && a !in s && a != NULL && IsPlace(chunks, s, chunks[a].elmSize, i)
    ensures var c, f := PutSorted(chunks, s, i, a), Inserted(s, i, a);
      && SortedBySize(c, f)
      && (Linked(c, HeadOf(f), f) <==> i < |s| || s == [] || chunks[a].next == NULL)
  {
    var c, f := PutSorted(chunks, s, i, a), Inserted(s, i, a);
    hide Distinct, Linked, Inserted, PutSorted, SortedBySize, IsPlace, NextIn;
    LinkedDistinct(chunks, head, s);
    InsertedAt(s, i, a, i);
    PutSortedRelinks(chunks, head, s, i, a);
    forall k | 0 <= k < |f|
      ensures f[k] in c && f[k] != NULL && (k != i ==> c[f[k]].next == NextIn(f, k))
    {
      InsertedNext(chunks, head, s, i, a, k);
    }
    forall k, l | 0 <= k < l < |f| ensures c[f[k]].elmSize <= c[f[l]].elmSize && f[k] != f[l] {
      SortedAround(chunks, s, i, a, k, l);
    }
    assert SortedBySize(c, f) by { IsSorted(c, f); }
    LinkedAgain(c, f, i);
  }

  lemma IsSorted(c: Chunks, f: seq<Addr>)
    requires forall k :: 0 <= k < |f| ==> f[k] in c
    requires forall k, l :: 0 <= k < l < |f| ==> c[f[k]].elmSize <= c[f[l]].elmSize
    ensures SortedBySize(c, f)
  {
  }

  lemma PutSortedRelinks(chunks: Chunks, head: Addr, s: seq<Addr>, i: nat, a: Addr)
    requires Linked(chunks, head, s) && a in chunks && a !in s && i <= |s|
    ensures forall k :: 0 <= k < |s| ==> s[k] in chunks
    ensures |Inserted(s, i, a)| == |s| + 1
    ensures var c := PutSorted(chunks, s, i, a);
      && Relinked(chunks, c)
      && c[a].next == (if i < |s| then s[i] else if s == [] then NULL else chunks[a].next)
      && (forall x :: x in chunks && x != a && x !in s ==> c[x] == chunks[x])
  {
    assert i > 0 ==> s[i - 1] in s;
  }

  lemma LinkedDistinct(chunks: Chunks, head: Addr, s: seq<Addr>)
    requires Linked(chunks, head, s)
    ensures Distinct(s)
  {
  }

  lemma LinkedAgain(c: Chunks, f: seq<Addr>, i: nat)
    requires i < |f| && (forall k, l :: 0 <= k < l < |f| ==> f[k] != f[l])
    requires forall k :: 0 <= k < |f| ==> f[k] in c && f[k] != NULL && (k != i ==> c[f[k]].next == NextIn(f, k))
    ensures Linked(c, HeadOf(f), f) <==> c[f[i]].next == NextIn(f, i)
  {
  }

  lemma InsertedNext(chunks: Chunks, head: Addr, s: seq<Addr>, i: nat, a: Addr, k: nat)
    requires Linked(chunks, head, s) && a in chunks && a !in s && a != NULL && i <= |s| && k <= |s|
    ensures var c, f := PutSorted(chunks, s, i, a), Inserted(s, i, a);
      f[k] in c && f[k] != NULL && (k != i ==> c[f[k]].next == NextIn(f, k))
  {
    hide Distinct, NextIn;
    InsertedAt(s, i, a, k);
    LinkedDistinct(chunks, head, s);
    var m := if k < i then k else k - 1;
    if k != i {
      assert s[m] in s;
      if i > 0 { AllDiffer(s, i - 1, m); }
    }
  }

  lemma InsertedAt(s: seq<Addr>, i: nat, a: Addr, k: nat)
    requires i <= |s| && k <= |s|
    ensures var f := Inserted(s, i, a);
      && f[k] == (if k < i then s[k] else if k == i then a else s[k - 1])
      && NextIn(f, k) == (if k + 1 == i then a else if k == i then (if i < |s| then s[i] else NULL)
                          else NextIn(s, if k < i then k else k - 1))
  {
  }

  lemma SortedAround(chunks: Chunks, s: seq<Addr>, i: nat, a: Addr, k: nat, l: nat)
    requires SortedBySize(chunks, s) && a in chunks && a !in s && IsPlace(chunks, s, chunks[a].elmSize, i)
    requires k < l <= |s| && Distinct(s)
    ensures var f := Inserted(s, i, a);
      f[k] in chunks && f[l] in chunks && chunks[f[k]].elmSize <= chunks[f[l]].elmSize && f[k] != f[l]
  {
    var f := Inserted(s, i, a);
    assert f[k] == if k < i then s[k] else if k == i then a else s[k - 1];
    assert f[l] == if l < i then s[l] else if l == i then a else s[l - 1];
    assert forall m :: 0 <= m < |s| ==> s[m] in s;
    if k == i && l > i + 1 {
      assert chunks[s[i]].elmSize <= chunks[s[l - 1]].elmSize;
    }
  }

  // ------------------------------------------------------------------
  // The whole state.

  /** One bucket: the list of all chunks of its class, with their free slots
      counted. */
  ghost predicate Bucket(chunks: Chunks, t: nat, head: Addr, n: nat, s: seq<Addr>) {
    && Linked(chunks, head, s) && n == SumFree(chunks, s)
    && (forall a :: a in s <==> a in chunks && Small(chunks[a]) && TypeOf(chunks[a].elmSize) == t)
  }

  ghost predicate Buckets(chunks: Chunks, buckets: seq<Addr>, nfrees: seq<nat>, lists: seq<seq<Addr>>) {
    && |buckets| == |nfrees| == |lists| == TYPES
    && forall t :: 0 <= t < TYPES ==> Bucket(chunks, t, buckets[t], nfrees[t], lists[t])
  }

  ghost predicate Larges(chunks: Chunks, large: Addr, larges: seq<Addr>) {
    && Linked(chunks, large, larges) && SortedBySize(chunks, larges)
    && (forall a :: a in larges <==> a in chunks && !Small(chunks[a]))
  }

  /** What every step keeps, but for blocks in use having a user. */
  ghost predicate Sound(chunks: Chunks, start: Addr, nextFree: Addr, buckets: seq<Addr>, nfrees: seq<nat>, large: Addr,
                        lists: seq<seq<Addr>>, larges: seq<Addr>, owner: map<Addr, Place>) {
    && Shaped(chunks) && Tiled(chunks, start, nextFree) && Owned(chunks, owner)
    && Buckets(chunks, buckets, nfrees, lists) && Larges(chunks, large, larges)
  }

  /** Nothing moves: chunks keep their place and class, blocks their owner. */
  ghost predicate Extends(chunks: Chunks, owner: map<Addr, Place>, chunks': Chunks, owner': map<Addr, Place>) {
    && (forall a :: a in chunks ==> a in chunks' && SameShape(chunks[a], chunks'[a]))
    && (forall p :: p in owner ==> p in owner' && owner'[p] == owner[p])
  }

  ghost predicate SameShape(c: Chunk, d: Chunk) {
    c.begin == d.begin && c.elmSize == d.elmSize && c.bytes == d.bytes
  }

  // ------------------------------------------------------------------
  // Steps.

  /** Relinking touches neither the memory nor the owners. */
  lemma RelinkedKeeps(chunks: Chunks, chunks': Chunks, start: Addr, nextFree: Addr, owner: map<Addr, Place>)
    requires Relinked(chunks, chunks') && Shaped(chunks) && Tiled(chunks, start, nextFree) && Owned(chunks, owner)
    ensures Shaped(chunks') && Tiled(chunks', start, nextFree) && Owned(chunks', owner)
  {
    hide Owned, PlacedAt, FirstElement, MaxElements, CountClear, Used, SmallShape, LargeShape;
    forall a | a in chunks ensures SameShape(chunks[a], chunks'[a]) {
    }
    TiledSame(chunks, chunks', start, nextFree);
    forall s, p ensures PlacedAt(chunks', s, p) <==> PlacedAt(chunks, s, p) {
      RelinkedPlaced(chunks, chunks', s, p);
    }
    OwnedSame(chunks, chunks', owner);
  }

  lemma TiledSame(chunks: Chunks, chunks': Chunks, start: Addr, nextFree: Addr)
    requires Tiled(chunks, start, nextFree) && chunks'.Keys == chunks.Keys
    requires forall a :: a in chunks ==> SameShape(chunks[a], chunks'[a])
    ensures Tiled(chunks', start, nextFree)
  {
    forall a, b | a in chunks' && b in chunks' && a != b ensures Apart(chunks'[a], chunks'[b]) {
      assert Apart(chunks[a], chunks[b]) && SameShape(chunks[a], chunks'[a]) && SameShape(chunks[b], chunks'[b]);
    }
    forall a | a in chunks' ensures start <= chunks'[a].begin && chunks'[a].begin + chunks'[a].bytes <= nextFree {
      assert SameShape(chunks[a], chunks'[a]);
    }
  }

  lemma RelinkedPlaced(chunks: Chunks, chunks': Chunks, s: Place, p: Addr)
    requires Relinked(chunks, chunks') && Shaped(chunks)
    ensures PlacedAt(chunks', s, p) <==> PlacedAt(chunks, s, p)
  {
    hide FirstElement, MaxElements, CountClear, Used, SmallShape, LargeShape;
  }

  lemma OwnedSame(chunks: Chunks, chunks': Chunks, owner: map<Addr, Place>)
    requires Owned(chunks, owner) && chunks'.Keys == chunks.Keys
    requires forall a :: a in chunks ==> SameShape(chunks[a], chunks'[a])
    requires forall s, p :: PlacedAt(chunks', s, p) <==> PlacedAt(chunks, s, p)
    ensures Owned(chunks', owner)
  {
    hide PlacedAt;
    forall a | a in chunks' ensures DescriptorIn(chunks', owner, a) {
      assert DescriptorIn(chunks, owner, a);
      assert SameShape(chunks[owner[a].chunk], chunks'[owner[a].chunk]);
    }
  }

  /** A bucket none of whose chunks changed. */
  lemma BucketElsewhere(chunks: Chunks, chunks': Chunks, t: nat, head: Addr, n: nat, s: seq<Addr>)
    requires Bucket(chunks, t, head, n, s)
    requires forall a :: a in s ==> a in chunks' && chunks'[a] == chunks[a]
    requires forall a :: a in chunks' && Small(chunks'[a]) && TypeOf(chunks'[a].elmSize) == t ==> a in s
    ensures Bucket(chunks', t, head, n, s)
  {
    hide SumFree, SmallShape;
    LinkedElsewhere(chunks, chunks', head, s);
    assert forall i :: 0 <= i < |s| ==> s[i] in s;
    SumFreeSame(chunks, chunks', s);
  }

  // ------------------------------------------------------------------
  // Taking and giving back a slot.

  lemma TakenPlaced(chunks: Chunks, a: Addr, k: nat, c': Chunk, s: Place, q: Addr)
    requires Shaped(chunks) && a in chunks && ValidSmall(chunks[a]) && k < Max(chunks[a]) && !Used(chunks[a].usebits, k)
    requires c' == chunks[a].(usebits := Taken(chunks[a].usebits, k), nfree := c'.nfree) && ValidSmall(c')
    ensures PlacedAt(chunks[a := c'], s, q) <==> PlacedAt(chunks, s, q) || (s == Slot(a, k) && q == SlotAddr(chunks[a], k))
  {
    hide FirstElement, MaxElements, CountClear, Used, Taken, SmallShape;
    SmallOrLarge(c');
    if s.Slot? && s.chunk == a && s.k < Max(c') {
      UseChange(chunks[a].usebits, k, s.k);
    }
  }

  lemma GivenPlaced(chunks: Chunks, a: Addr, k: nat, c': Chunk, s: Place, q: Addr)
    requires Shaped(chunks) && a in chunks && ValidSmall(chunks[a]) && k < Max(chunks[a]) && Used(chunks[a].usebits, k)
    requires c' == chunks[a].(usebits := Given(chunks[a].usebits, k), nfree := c'.nfree) && ValidSmall(c')
    ensures PlacedAt(chunks[a := c'], s, q) <==> PlacedAt(chunks, s, q) && s != Slot(a, k)
  {
    hide FirstElement, MaxElements, CountClear, Used, Given, SmallShape;
    SmallOrLarge(c');
    if s.Slot? && s.chunk == a && s.k < Max(c') {
      UseChange(chunks[a].usebits, k, s.k);
    }
  }

  /** One place, one address, and the other way round. */
  lemma PlacesDiffer(chunks: Chunks, start: Addr, nextFree: Addr, s: Place, t: Place, p: Addr)
    requires Shaped(chunks) && Tiled(chunks, start, nextFree) && PlacedAt(chunks, s, p) && PlacedAt(chunks, t, p)
    ensures s == t
  {
    hide Shaped, Placed, AddrOf, Apart;
    PlacedIn(chunks, s);
    PlacedIn(chunks, t);
    BlockRange(chunks, s);
    BlockRange(chunks, t);
    if s != t {
      PlacesApart(chunks, s, t);
    }
  }

  lemma OneSlotChanged(chunks: Chunks, start: Addr, nextFree: Addr, a: Addr, c': Chunk)
    requires Shaped(chunks) && Tiled(chunks, start, nextFree) && a in chunks
    requires SameShape(chunks[a], c') && ValidSmall(c')
    ensures var chunks' := chunks[a := c'];
      && Shaped(chunks') && Tiled(chunks', start, nextFree)
      && (forall b :: b in chunks ==> SameShape(chunks[b], chunks'[b]))
  {
    hide ValidSmall, ValidLarge, Tiled;
    var chunks' := chunks[a := c'];
    forall b | b in chunks ensures SameShape(chunks[b], chunks'[b]) {
    }
    TiledSame(chunks, chunks', start, nextFree);
  }

  /** c' is the chunk at a with slot k taken. */
  ghost predicate Takes(chunks: Chunks, a: Addr, k: nat, c': Chunk) {
    && a in chunks && ValidSmall(chunks[a]) && k < Max(chunks[a]) && !Used(chunks[a].usebits, k)
    && c' == chunks[a].(usebits := Taken(chunks[a].usebits, k), nfree := c'.nfree) && ValidSmall(c')
  }

  lemma TakesShape(chunks: Chunks, a: Addr, k: nat, c': Chunk)
    requires Takes(chunks, a, k, c')
    ensures a in chunks && Small(chunks[a]) && SameShape(chunks[a], c') && ValidSmall(c')
    ensures forall q :: !PlacedAt(chunks, Slot(a, k), q)
  {
    hide MaxElements, FirstElement, SmallShape, Used, Taken, CountClear;
  }

  lemma AllTaken(chunks: Chunks, a: Addr, k: nat, c': Chunk)
    requires Shaped(chunks) && Takes(chunks, a, k, c')
    ensures a in chunks && Small(chunks[a])
    ensures PlacedAt(chunks[a := c'], Slot(a, k), SlotAddr(chunks[a], k))
    ensures forall t, q :: PlacedAt(chunks[a := c'], t, q) <==>
                           PlacedAt(chunks, t, q) || (t == Slot(a, k) && q == SlotAddr(chunks[a], k))
  {
    hide PlacedAt, SlotAddr, Max, SmallShape, Used, Taken, CountClear, Shaped;
    TakenPlaced(chunks, a, k, c', Slot(a, k), SlotAddr(chunks[a], k));
    forall t, q ensures PlacedAt(chunks[a := c'], t, q) <==>
                        PlacedAt(chunks, t, q) || (t == Slot(a, k) && q == SlotAddr(chunks[a], k))
    {
      TakenPlaced(chunks, a, k, c', t, q);
    }
  }

  lemma TakeKeepsMemory(chunks: Chunks, start: Addr, nextFree: Addr, owner: map<Addr, Place>, a: Addr, k: nat, c': Chunk)
    requires Shaped(chunks) && Tiled(chunks, start, nextFree) && Owned(chunks, owner) && Takes(chunks, a, k, c')
    ensures a in chunks && Small(chunks[a])
    ensures var p, chunks' := SlotAddr(chunks[a], k), chunks[a := c'];
      && p !in owner && Shaped(chunks') && Tiled(chunks', start, nextFree) && Owned(chunks', owner[p := Slot(a, k)])
      && Extends(chunks, owner, chunks', owner[p := Slot(a, k)])
  {
    hide ValidSmall, ValidLarge, PlacedAt, SlotAddr, Tiled, Owned, Shaped, Takes, SmallShape, SameShape;
    TakesShape(chunks, a, k, c');
    var p, chunks', s := SlotAddr(chunks[a], k), chunks[a := c'], Slot(a, k);
    OneSlotChanged(chunks, start, nextFree, a, c');
    AllTaken(chunks, a, k, c');
    forall t | PlacedAt(chunks', t, p) ensures t == s {
      PlacesDiffer(chunks', start, nextFree, s, t, p);
    }
    OwnerGains(chunks, chunks', owner, s, p);
  }

  lemma OwnerGains(chunks: Chunks, chunks': Chunks, owner: map<Addr, Place>, s: Place, p: Addr)
    requires Owned(chunks, owner) && chunks'.Keys == chunks.Keys
    requires forall b :: b in chunks ==> SameShape(chunks[b], chunks'[b])
    requires forall t, q :: PlacedAt(chunks', t, q) <==> PlacedAt(chunks, t, q) || (t == s && q == p)
    requires forall t :: PlacedAt(chunks', t, p) ==> t == s
    requires !PlacedAt(chunks, s, p)
    ensures p !in owner && Owned(chunks', owner[p := s])
  {
    hide PlacedAt, Owned;
    if p in owner {
      OwnerPlaced(chunks, owner, p);
      assert false;
    }
    forall t, q ensures PlacedAt(chunks', t, q) <==> q in owner[p := s] && owner[p := s][q] == t {
      PlacedOwner(chunks, owner, t, q);
    }
    DescriptorsOwned(chunks, owner);
    DescriptorsStay(chunks, chunks', owner, owner[p := s]);
    OwnedIf(chunks', owner[p := s]);
  }

  lemma PlacedOwner(chunks: Chunks, owner: map<Addr, Place>, s: Place, p: Addr)
    requires Owned(chunks, owner)
    ensures PlacedAt(chunks, s, p) <==> p in owner && owner[p] == s
  {
  }

  lemma OwnedIf(chunks: Chunks, owner: map<Addr, Place>)
    requires forall s, p :: PlacedAt(chunks, s, p) <==> p in owner && owner[p] == s
    requires forall a :: a in chunks ==> DescriptorIn(chunks, owner, a)
    ensures Owned(chunks, owner)
  {
    hide PlacedAt;
  }

  lemma DescriptorsStay(chunks: Chunks, chunks': Chunks, owner: map<Addr, Place>, owner': map<Addr, Place>)
    requires Owned(chunks, owner)
    requires forall b :: b in chunks ==> b in chunks' && SameShape(chunks[b], chunks'[b])
    requires forall b :: b in chunks ==> b in owner' && (b in owner ==> owner'[b] == owner[b])
    ensures forall b :: b in chunks ==> DescriptorIn(chunks', owner', b)
  {
    hide PlacedAt;
    forall b | b in chunks ensures DescriptorIn(chunks', owner', b) {
      assert DescriptorIn(chunks, owner, b);
      assert SameShape(chunks[owner[b].chunk], chunks'[owner[b].chunk]);
    }
  }

  lemma DescriptorsOwned(chunks: Chunks, owner: map<Addr, Place>)
    requires Owned(chunks, owner)
    ensures chunks.Keys <= owner.Keys
  {
    hide PlacedAt;
    forall a | a in chunks ensures a in owner {
      assert DescriptorIn(chunks, owner, a);
    }
  }

  /** c' is the chunk at a with slot k given back. */
  ghost predicate Gives(chunks: Chunks, a: Addr, k: nat, c': Chunk) {
    && a in chunks && ValidSmall(chunks[a]) && k < Max(chunks[a]) && Used(chunks[a].usebits, k)
    && c' == chunks[a].(usebits := Given(chunks[a].usebits, k), nfree := c'.nfree) && ValidSmall(c')
  }

  lemma GivesShape(chunks: Chunks, a: Addr, k: nat, c': Chunk)
    requires Gives(chunks, a, k, c')
    ensures a in chunks && Small(chunks[a]) && SameShape(chunks[a], c') && ValidSmall(c')
  {
    hide MaxElements, FirstElement, SmallShape, Used, Given, CountClear;
  }

  lemma AllGiven(chunks: Chunks, a: Addr, k: nat, c': Chunk)
    requires Shaped(chunks) && Gives(chunks, a, k, c')
    ensures forall t, q :: PlacedAt(chunks[a := c'], t, q) <==> PlacedAt(chunks, t, q) && t != Slot(a, k)
  {
    hide PlacedAt, SlotAddr, Max, SmallShape, Used, Given, CountClear, Shaped;
    forall t, q ensures PlacedAt(chunks[a := c'], t, q) <==> PlacedAt(chunks, t, q) && t != Slot(a, k) {
      GivenPlaced(chunks, a, k, c', t, q);
    }
  }

  lemma GiveKeepsMemory(chunks: Chunks, start: Addr, nextFree: Addr, owner: map<Addr, Place>, p: Addr, c': Chunk)
    requires Shaped(chunks) && Tiled(chunks, start, nextFree) && Owned(chunks, owner)
    requires p in owner && owner[p].Slot? && p !in chunks && Gives(chunks, owner[p].chunk, owner[p].k, c')
    ensures var chunks' := chunks[owner[p].chunk := c'];
      && Shaped(chunks') && Tiled(chunks', start, nextFree) && Owned(chunks', owner - {p})
      && Extends(chunks, owner - {p}, chunks', owner - {p})
  {
    hide ValidSmall, ValidLarge, PlacedAt, Tiled, Owned, Shaped, Gives, SmallShape, SameShape;
    var a, k := owner[p].chunk, owner[p].k;
    var chunks', owner' := chunks[a := c'], owner - {p};
    GivesShape(chunks, a, k, c');
    OneSlotChanged(chunks, start, nextFree, a, c');
    AllGiven(chunks, a, k, c');
    OwnerPlaced(chunks, owner, p);
    forall s, q ensures PlacedAt(chunks', s, q) <==> q in owner' && owner'[q] == s {
      PlacedOwner(chunks, owner, s, q);
      if PlacedAt(chunks, s, q) && s == owner[p] { PlacedOnce(chunks, s, p, q); }
    }
    DescriptorsOwned(chunks, owner);
    DescriptorsStay(chunks, chunks', owner, owner');
    OwnedIf(chunks', owner');
  }

  lemma PlacedOnce(chunks: Chunks, s: Place, p: Addr, q: Addr)
    requires PlacedAt(chunks, s, p) && PlacedAt(chunks, s, q)
    ensures p == q
  {
  }

  // ------------------------------------------------------------------
  // A new chunk.

  lemma NewPlaced(chunks: Chunks, d: Addr, c: Chunk, s: Place, q: Addr)
    requires d !in chunks
    requires ValidSmall(c) ==> forall k :: 0 <= k < Max(c) ==> !Used(c.usebits, k)
    ensures PlacedAt(chunks[d := c], s, q) <==>
            PlacedAt(chunks, s, q) || (ValidLarge(c) && s == Whole(d) && q == c.begin)
  {
    hide FirstElement, MaxElements, CountClear, Used, SmallShape;
  }

  function WithWhole(owner: map<Addr, Place>, c: Chunk, d: Addr): map<Addr, Place> {
    if Small(c) then owner else owner[c.begin := Whole(d)]
  }

  lemma NewKeepsMemory(chunks: Chunks, start: Addr, nextFree: Addr, owner: map<Addr, Place>, d: Addr, c: Chunk)
    requires Shaped(chunks) && Tiled(chunks, start, nextFree) && Owned(chunks, owner)
    requires d !in chunks && DescriptorIn(chunks, owner, d) && c.begin == nextFree
    requires ValidSmall(c) || ValidLarge(c)
    requires ValidSmall(c) ==> forall k :: 0 <= k < Max(c) ==> !Used(c.usebits, k)
    ensures nextFree !in owner
    ensures var chunks', owner' := chunks[d := c], WithWhole(owner, c, d);
      && Shaped(chunks') && Tiled(chunks', start, nextFree + c.bytes) && Owned(chunks', owner')
      && Extends(chunks, owner, chunks', owner')
  {
    hide PlacedAt, Max, ValidSmall, ValidLarge, CountClear, Used, First, Shaped, Owned, Tiled, DescriptorIn;
    var chunks', owner' := chunks[d := c], WithWhole(owner, c, d);
    if nextFree in owner {
      OwnedBelow(chunks, start, nextFree, owner, nextFree);
    }
    DescriptorNotNull(chunks, start, nextFree, owner, d);
    NewShaped(chunks, d, c);
    EitherKind(c);
    forall s, q ensures PlacedAt(chunks', s, q) <==> q in owner' && owner'[q] == s {
      NewPlaced(chunks, d, c, s, q);
      PlacedOwner(chunks, owner, s, q);
      if s == Whole(d) { NotInChunks(chunks, s, q); }
    }
    DescriptorsOwned(chunks, owner);
    DescriptorsStay(chunks, chunks', owner, owner');
    NewDescriptor(chunks, owner, d, c);
    OwnedIf(chunks', owner');
    NewTiled(chunks, start, nextFree, d, c);
  }

  lemma DescriptorNotNull(chunks: Chunks, start: Addr, nextFree: Addr, owner: map<Addr, Place>, d: Addr)
    requires Shaped(chunks) && Tiled(chunks, start, nextFree) && Owned(chunks, owner) && DescriptorIn(chunks, owner, d)
    ensures d != NULL && d < nextFree
  {
    hide PlacedAt;
    OwnedBelow(chunks, start, nextFree, owner, d);
  }

  lemma NotInChunks(chunks: Chunks, s: Place, q: Addr)
    requires s.chunk !in chunks
    ensures !PlacedAt(chunks, s, q)
  {
  }

  lemma NewDescriptor(chunks: Chunks, owner: map<Addr, Place>, d: Addr, c: Chunk)
    requires d !in chunks && DescriptorIn(chunks, owner, d) && c.begin != d
    ensures DescriptorIn(chunks[d := c], WithWhole(owner, c, d), d)
  {
    hide Small;
  }

  lemma EitherKind(c: Chunk)
    requires ValidSmall(c) || ValidLarge(c)
    ensures Small(c) <==> ValidSmall(c)
    ensures Small(c) <==> !ValidLarge(c)
  {
    SmallOrLarge(c);
  }

  lemma NewShaped(chunks: Chunks, d: Addr, c: Chunk)
    requires Shaped(chunks) && d != NULL && (ValidSmall(c) || ValidLarge(c))
    ensures Shaped(chunks[d := c])
  {
    hide ValidSmall, ValidLarge;
  }

  lemma NewTiled(chunks: Chunks, start: Addr, nextFree: Addr, d: Addr, c: Chunk)
    requires Tiled(chunks, start, nextFree) && d !in chunks && c.begin == nextFree
    ensures Tiled(chunks[d := c], start, nextFree + c.bytes)
  {
    var chunks' := chunks[d := c];
    forall a, b | a in chunks' && b in chunks' && a != b ensures Apart(chunks'[a], chunks'[b]) {
      if a != d && b != d { assert Apart(chunks[a], chunks[b]); }
    }
  }

  // ------------------------------------------------------------------
  // Buckets.

  lemma BucketAt(chunks: Chunks, buckets: seq<Addr>, nfrees: seq<nat>, lists: seq<seq<Addr>>, t: nat)
    requires Buckets(chunks, buckets, nfrees, lists) && t < TYPES
    ensures |buckets| == |nfrees| == |lists| == TYPES
    ensures Bucket(chunks, t, buckets[t], nfrees[t], lists[t])
  {
  }

  /** A slot less or more in one chunk. */
  lemma BucketsRecount(chunks: Chunks, buckets: seq<Addr>, nfrees: seq<nat>, lists: seq<seq<Addr>>, t: nat, a: Addr,
                       c': Chunk, n: nat)
    requires Buckets(chunks, buckets, nfrees, lists) && t < TYPES
    requires a in chunks && Small(chunks[a]) && TypeOf(chunks[a].elmSize) == t
    requires SameShape(chunks[a], c') && c'.next == chunks[a].next && n + chunks[a].nfree == nfrees[t] + c'.nfree
    ensures |nfrees| == TYPES && Buckets(chunks[a := c'], buckets, nfrees[t := n], lists)
  {
    hide Bucket;
    var chunks' := chunks[a := c'];
    forall u | 0 <= u < TYPES ensures Bucket(chunks', u, buckets[u], nfrees[t := n][u], lists[u]) {
      BucketAt(chunks, buckets, nfrees, lists, u);
      BucketRecount(chunks, u, buckets[u], nfrees[u], lists[u], a, c', nfrees[t := n][u]);
    }
  }

  lemma BucketRecount(chunks: Chunks, u: nat, head: Addr, n: nat, s: seq<Addr>, a: Addr, c': Chunk, n': nat)
    requires Bucket(chunks, u, head, n, s) && a in chunks && Small(chunks[a])
    requires SameShape(chunks[a], c') && c'.next == chunks[a].next
    requires TypeOf(chunks[a].elmSize) == u ==> n' + chunks[a].nfree == n + c'.nfree
    requires TypeOf(chunks[a].elmSize) != u ==> n' == n
    ensures Bucket(chunks[a := c'], u, head, n', s)
  {
    hide SumFree, SmallShape, TypeOf;
    LinkedElsewhere(chunks, chunks[a := c'], head, s);
    assert forall i :: 0 <= i < |s| ==> s[i] in s;
    if a in s {
      SumFreeChange(chunks, s, a, c');
    } else {
      SumFreeSame(chunks, chunks[a := c'], s);
    }
  }

  /** What put_front has done to the list of t. */
  ghost predicate FrontedIn(chunks: Chunks, chunks': Chunks, s: seq<Addr>, a: Addr) {
    && Relinked(chunks, chunks') && Linked(chunks', a, Fronted(s, a))
    && (forall x :: x in chunks && x !in s && x != a ==> chunks'[x] == chunks[x])
  }

  lemma PrecedesAt(s: seq<Addr>, i: nat)
    requires i < |s|
    ensures Precedes(s, PrevIn(s, i), s[i])
  {
  }

  /** The pointers put_front writes. */
  function PutFrontOf(chunks: Chunks, prev: Addr, a: Addr, head: Addr): Chunks
    requires a in chunks && (prev != NULL ==> prev in chunks)
  {
    SetNext(if prev != NULL then SetNext(chunks, prev, chunks[a].next) else chunks, a, head)
  }

  /** Whether prev is what precedes a in the list. */
  ghost predicate Precedes(s: seq<Addr>, prev: Addr, a: Addr) {
    if a in s then exists i :: 0 <= i < |s| && s[i] == a && prev == PrevIn(s, i) else prev == NULL
  }

  function PrevIn(s: seq<Addr>, i: nat): Addr
    requires i <= |s|
  {
    if i == 0 then NULL else s[i - 1]
  }

  lemma PutFrontFronts(chunks: Chunks, head: Addr, s: seq<Addr>, prev: Addr, a: Addr)
    requires Linked(chunks, head, s) && a in chunks && a != NULL && Precedes(s, prev, a)
    ensures a == head ==> FrontedIn(chunks, chunks, s, a) && Fronted(s, a) == s
    ensures prev != NULL ==> prev in chunks
    ensures a != head ==> FrontedIn(chunks, PutFrontOf(chunks, prev, a, head), s, a)
  {
    hide Distinct, Fronted, FrontedIn, PutFrontOf;
    if a in s {
      var i :| 0 <= i < |s| && s[i] == a && prev == PrevIn(s, i);
      LinkAt(chunks, head, s, i);
      if i == 0 {
        HeadStays(chunks, head, s);
      } else {
        LinkAt(chunks, head, s, i - 1);
        PutFrontMoved(chunks, head, s, i);
      }
    } else {
      LinkAt(chunks, head, s, 0);
      PutFrontNew(chunks, head, s, a);
    }
  }

  lemma HeadStays(chunks: Chunks, head: Addr, s: seq<Addr>)
    requires Linked(chunks, head, s) && s != []
    ensures FrontedIn(chunks, chunks, s, head) && Fronted(s, head) == s
  {
    WithoutAt(s, 0);
    assert Fronted(s, head) == s;
  }

  lemma PutFrontNew(chunks: Chunks, head: Addr, s: seq<Addr>, a: Addr)
    requires Linked(chunks, head, s) && a in chunks && a !in s && a != NULL
    ensures FrontedIn(chunks, PutFrontOf(chunks, NULL, a, head), s, a)
  {
    hide Linked;
    WithoutNone(s, a);
    FrontNew(chunks, head, s, a);
  }

  lemma PutFrontMoved(chunks: Chunks, head: Addr, s: seq<Addr>, i: nat)
    requires Linked(chunks, head, s) && 0 < i < |s|
    ensures s[i] in chunks && s[i - 1] in chunks && s[i] != head && s[i - 1] != NULL
    ensures FrontedIn(chunks, PutFrontOf(chunks, s[i - 1], s[i], head), s, s[i])
  {
    hide Linked, Distinct, Fronted;
    LinkAt(chunks, head, s, i);
    LinkAt(chunks, head, s, i - 1);
    LinkedDistinct(chunks, head, s);
    AllDiffer(s, 0, i);
    FrontMoved(chunks, head, s, i);
    assert s[i] in s && s[i - 1] in s;
  }

  lemma LinkAt(chunks: Chunks, head: Addr, s: seq<Addr>, i: nat)
    requires Linked(chunks, head, s)
    ensures head == HeadOf(s)
    ensures i < |s| ==> s[i] != NULL && s[i] in chunks && chunks[s[i]].next == NextIn(s, i)
  {
    assert i < |s| ==> s[i] in s;
  }

  lemma BucketsFronted(chunks: Chunks, chunks': Chunks, buckets: seq<Addr>, nfrees: seq<nat>, lists: seq<seq<Addr>>,
                       t: nat, a: Addr)
    requires Buckets(chunks, buckets, nfrees, lists) && t < TYPES && a in lists[t]
    requires FrontedIn(chunks, chunks', lists[t], a)
    ensures Buckets(chunks', buckets[t := a], nfrees, lists[t := Fronted(lists[t], a)])
  {
    hide Bucket, Fronted;
    forall u | 0 <= u < TYPES
      ensures Bucket(chunks', u, buckets[t := a][u], nfrees[u], lists[t := Fronted(lists[t], a)][u])
    {
      BucketAt(chunks, buckets, nfrees, lists, u);
      if u == t {
        BucketFronted(chunks, chunks', t, buckets[t], nfrees[t], lists[t], a);
      } else {
        BucketsApart(chunks, t, buckets[t], nfrees[t], lists[t], u, buckets[u], nfrees[u], lists[u]);
        BucketElsewhere(chunks, chunks', u, buckets[u], nfrees[u], lists[u]);
      }
    }
  }

  lemma BucketsApart(chunks: Chunks, t: nat, h: Addr, n: nat, s: seq<Addr>, u: nat, h': Addr, n': nat, s': seq<Addr>)
    requires t != u && Bucket(chunks, t, h, n, s) && Bucket(chunks, u, h', n', s')
    ensures forall x :: x in s' ==> x !in s && x in chunks
    ensures forall x :: x in chunks && Small(chunks[x]) && TypeOf(chunks[x].elmSize) == u ==> x in s'
  {
    hide Linked, SumFree, TypeOf, SmallShape;
  }

  lemma BucketFronted(chunks: Chunks, chunks': Chunks, t: nat, head: Addr, n: nat, s: seq<Addr>, a: Addr)
    requires Bucket(chunks, t, head, n, s) && a in s && FrontedIn(chunks, chunks', s, a)
    ensures Bucket(chunks', t, a, n, Fronted(s, a))
  {
    hide SumFree, SmallShape, TypeOf, Distinct, Fronted;
    assert forall i :: 0 <= i < |s| ==> s[i] in s;
    FrontedPermutes(s, a);
    SumFreeFronted(chunks, s, a);
    SumFreeSame(chunks, chunks', Fronted(s, a));
  }

  /** A new chunk in front of the list of its class. */
  lemma BucketsGrown(chunks: Chunks, chunks': Chunks, buckets: seq<Addr>, nfrees: seq<nat>, lists: seq<seq<Addr>>,
                     t: nat, d: Addr, c: Chunk)
    requires Buckets(chunks, buckets, nfrees, lists) && t < TYPES && d !in chunks && Small(c) && TypeOf(c.elmSize) == t
    requires FrontedIn(chunks[d := c], chunks', lists[t], d)
    ensures Buckets(chunks', buckets[t := d], nfrees[t := nfrees[t] + c.nfree], lists[t := Fronted(lists[t], d)])
  {
    hide Bucket, Fronted;
    var n := nfrees[t] + c.nfree;
    var buckets', nfrees', lists' := buckets[t := d], nfrees[t := n], lists[t := Fronted(lists[t], d)];
    forall u | 0 <= u < TYPES ensures Bucket(chunks', u, buckets'[u], nfrees'[u], lists'[u]) {
      BucketAt(chunks, buckets, nfrees, lists, u);
      if u == t {
        BucketGrown(chunks, chunks', t, buckets[t], nfrees[t], lists[t], d, c);
      } else {
        BucketAt(chunks, buckets, nfrees, lists, t);
        BucketsApart(chunks, t, buckets[t], nfrees[t], lists[t], u, buckets[u], nfrees[u], lists[u]);
        BucketElsewhere(chunks, chunks', u, buckets[u], nfrees[u], lists[u]);
      }
    }
  }

  lemma BucketGrown(chunks: Chunks, chunks': Chunks, t: nat, head: Addr, n: nat, s: seq<Addr>, d: Addr, c: Chunk)
    requires Bucket(chunks, t, head, n, s) && d !in chunks && Small(c) && TypeOf(c.elmSize) == t
    requires FrontedIn(chunks[d := c], chunks', s, d)
    ensures Bucket(chunks', t, d, n + c.nfree, Fronted(s, d))
  {
    hide SumFree, SmallShape, TypeOf, Distinct;
    assert forall i :: 0 <= i < |s| ==> s[i] in s;
    WithoutNone(s, d);
    SumFreeSame(chunks, chunks', s);
    SumFreeCons(chunks', d, s);
  }

  lemma SumFreeCons(chunks: Chunks, d: Addr, s: seq<Addr>)
    requires d in chunks && forall i :: 0 <= i < |s| ==> s[i] in chunks
    ensures SumFree(chunks, [d] + s) == chunks[d].nfree + SumFree(chunks, s)
  {
    assert ([d] + s)[1..] == s;
  }

  /** A bucket that counts free slots has a chunk with some. */
  lemma SomeFree(chunks: Chunks, s: seq<Addr>)
    requires (forall i :: 0 <= i < |s| ==> s[i] in chunks) && SumFree(chunks, s) > 0
    ensures exists i :: 0 <= i < |s| && chunks[s[i]].nfree > 0
  {
    if forall i :: 0 <= i < |s| ==> chunks[s[i]].nfree == 0 {
      SumFreeZero(chunks, s);
    }
  }

  lemma LargesElsewhere(chunks: Chunks, chunks': Chunks, large: Addr, larges: seq<Addr>)
    requires Larges(chunks, large, larges)
    requires forall a :: a in chunks && !Small(chunks[a]) ==> a in chunks' && chunks'[a] == chunks[a]
    requires forall a :: a in chunks' && !Small(chunks'[a]) ==> a in chunks && !Small(chunks[a])
    ensures Larges(chunks', large, larges)
  {
    hide SmallShape;
    LinkedElsewhere(chunks, chunks', large, larges);
    assert forall i :: 0 <= i < |larges| ==> larges[i] in larges;
  }

  lemma LargesGrown(chunks: Chunks, large: Addr, larges: seq<Addr>, d: Addr, c: Chunk, i: nat)
    requires Larges(chunks, large, larges) && d !in chunks && d != NULL && !Small(c) && c.next == NULL
    requires forall k :: 0 <= k < |larges| ==> larges[k] in chunks[d := c]
    requires IsPlace(chunks[d := c], larges, c.elmSize, i)
    ensures Larges(PutSorted(chunks[d := c], larges, i, d), HeadOf(Inserted(larges, i, d)), Inserted(larges, i, d))
  {
    var c1, f := chunks[d := c], Inserted(larges, i, d);
    hide SmallShape, Linked, SortedBySize, IsPlace;
    LargesLinked(chunks, large, larges, d, c);
    SortedInsertLinks(c1, large, larges, i, d);
    PutSortedRelinks(c1, large, larges, i, d);
    forall a ensures a in f <==> a in larges || a == d {
      InsertedMembers(larges, i, d, a);
    }
  }

  lemma LargesLinked(chunks: Chunks, large: Addr, larges: seq<Addr>, d: Addr, c: Chunk)
    requires Larges(chunks, large, larges) && d !in chunks
    ensures Linked(chunks[d := c], large, larges) && SortedBySize(chunks[d := c], larges) && d !in larges
  {
    LinkedElsewhere(chunks, chunks[d := c], large, larges);
  }

  lemma InsertedMembers(s: seq<Addr>, i: nat, d: Addr, a: Addr)
    requires i <= |s|
    ensures a in Inserted(s, i, d) <==> a in s || a == d
  {
    assert s == s[..i] + s[i..];
  }

  lemma InChunks(chunks: Chunks, t: nat, head: Addr, n: nat, s: seq<Addr>)
    requires Bucket(chunks, t, head, n, s)
    ensures Linked(chunks, head, s)
    ensures (forall i :: 0 <= i < |s| ==> s[i] in chunks) && n == SumFree(chunks, s)
    ensures forall a :: a in s ==> a in chunks && Small(chunks[a]) && TypeOf(chunks[a].elmSize) == t
  {
    hide SumFree, Small, TypeOf;
  }

  lemma ListOf(chunks: Chunks, buckets: seq<Addr>, nfrees: seq<nat>, lists: seq<seq<Addr>>, t: nat)
    requires Buckets(chunks, buckets, nfrees, lists) && t < TYPES
    ensures |buckets| == |nfrees| == |lists| == TYPES
    ensures Linked(chunks, buckets[t], lists[t])
    ensures forall a :: a in lists[t] ==> a in chunks && Small(chunks[a]) && TypeOf(chunks[a].elmSize) == t
    ensures forall a :: a in chunks && Small(chunks[a]) && TypeOf(chunks[a].elmSize) == t ==> a in lists[t]
  {
    hide SumFree, Small, TypeOf, Linked;
  }

  lemma SmallIsValid(chunks: Chunks, a: Addr)
    requires Shaped(chunks) && a in chunks
    ensures a != NULL && (Small(chunks[a]) ==> ValidSmall(chunks[a]))
  {
    hide ValidSmall;
    if Small(chunks[a]) { SmallOrLarge(chunks[a]); }
  }

  lemma LargesRelinked(chunks: Chunks, chunks': Chunks, large: Addr, larges: seq<Addr>, s: seq<Addr>, a: Addr)
    requires Larges(chunks, large, larges) && FrontedIn(chunks, chunks', s, a)
    requires forall x :: x in s || x == a ==> x in chunks && Small(chunks[x])
    ensures Larges(chunks', large, larges)
  {
    hide Larges, Linked, Fronted, Small;
    forall x | x in chunks ensures chunks'[x].elmSize == chunks[x].elmSize && chunks'[x].bytes == chunks[x].bytes {
    }
    forall x | x in chunks ensures Small(chunks'[x]) <==> Small(chunks[x]) {
      SameKind(chunks[x], chunks'[x]);
    }
    LargesElsewhere(chunks, chunks', large, larges);
  }

  lemma SameKind(c: Chunk, d: Chunk)
    requires c.elmSize == d.elmSize && c.bytes == d.bytes
    ensures Small(c) <==> Small(d)
  {
  }

  lemma FrontedRelinks(chunks: Chunks, chunks': Chunks, s: seq<Addr>, a: Addr)
    requires FrontedIn(chunks, chunks', s, a)
    ensures Relinked(chunks, chunks')
  {
  }

  lemma ExtendsRelinked(chunks: Chunks, owner: map<Addr, Place>, chunks1: Chunks, owner1: map<Addr, Place>, chunks2: Chunks)
    requires Extends(chunks, owner, chunks1, owner1) && Relinked(chunks1, chunks2)
    ensures Extends(chunks, owner, chunks2, owner1)
  {
    forall a | a in chunks ensures a in chunks2 && SameShape(chunks[a], chunks2[a]) {
      assert SameShape(chunks[a], chunks1[a]);
    }
  }

  lemma ExtendsOn(c0: Chunks, o0: map<Addr, Place>, c1: Chunks, o1: map<Addr, Place>, c2: Chunks, o2: map<Addr, Place>)
    requires Extends(c0, o0, c1, o1) && Extends(c1, o1, c2, o2)
    ensures Extends(c0, o0, c2, o2)
  {
    forall a | a in c0 ensures a in c2 && SameShape(c0[a], c2[a]) {
      assert SameShape(c0[a], c1[a]) && SameShape(c1[a], c2[a]);
    }
  }

  lemma ExtendsKeeps(c0: Chunks, o0: map<Addr, Place>, c1: Chunks, o1: map<Addr, Place>, a: Addr)
    requires Extends(c0, o0, c1, o1) && a in c0
    ensures a in c1 && SameShape(c0[a], c1[a])
  {
  }

  /** A descriptor just taken is no chunk's yet. */
  lemma NewInLists(chunks: Chunks, buckets: seq<Addr>, nfrees: seq<nat>, lists: seq<seq<Addr>>, t: nat, d: Addr, c: Chunk)
    requires Buckets(chunks, buckets, nfrees, lists) && t < TYPES && d !in chunks
    ensures |buckets| == |lists| == TYPES && d !in lists[t]
    ensures Linked(chunks[d := c], buckets[t], lists[t])
  {
    hide Linked, SumFree, Small, TypeOf;
    ListOf(chunks, buckets, nfrees, lists, t);
    LinkedElsewhere(chunks, chunks[d := c], buckets[t], lists[t]);
  }

  /** Buckets none of whose chunks changed. */
  lemma BucketsElsewhere(chunks: Chunks, chunks': Chunks, buckets: seq<Addr>, nfrees: seq<nat>, lists: seq<seq<Addr>>)
    requires Buckets(chunks, buckets, nfrees, lists)
    requires forall a :: a in chunks && Small(chunks[a]) ==> a in chunks' && chunks'[a] == chunks[a]
    requires forall a :: a in chunks' && Small(chunks'[a]) ==> a in chunks && Small(chunks[a])
    ensures Buckets(chunks', buckets, nfrees, lists)
  {
    hide Bucket, Small, TypeOf;
    forall t | 0 <= t < TYPES ensures Bucket(chunks', t, buckets[t], nfrees[t], lists[t]) {
      BucketAt(chunks, buckets, nfrees, lists, t);
      ListOf(chunks, buckets, nfrees, lists, t);
      BucketElsewhere(chunks, chunks', t, buckets[t], nfrees[t], lists[t]);
    }
  }

  lemma LargesAre(chunks: Chunks, large: Addr, larges: seq<Addr>)
    requires Larges(chunks, large, larges)
    ensures Linked(chunks, large, larges) && forall a :: a in larges <==> a in chunks && !Small(chunks[a])
  {
  }

  lemma RelinkedKinds(chunks: Chunks, chunks': Chunks)
    requires Relinked(chunks, chunks')
    ensures forall a :: a in chunks ==> (Small(chunks'[a]) <==> Small(chunks[a]))
  {
    hide SmallShape;
  }

  lemma ExtendsItself(chunks: Chunks, owner: map<Addr, Place>)
    ensures Extends(chunks, owner, chunks, owner)
  {
  }

  lemma ExtendsOwner(chunks: Chunks, owner: map<Addr, Place>, p: Addr, s: Place, chunks': Chunks, owner': map<Addr, Place>)
    requires p !in owner && Extends(chunks, owner[p := s], chunks', owner')
    ensures Extends(chunks, owner, chunks', owner')
  {
    assert forall q :: q in owner ==> q in owner[p := s];
  }

  // ------------------------------------------------------------------
  // The user's blocks.

  lemma LivesAfterChunk(chunks0: Chunks, owner0: map<Addr, Place>, live: map<Addr, nat>, chunks: Chunks,
                        owner: map<Addr, Place>, made: set<Addr>)
    requires Lives(chunks0, owner0, live) && Extends(chunks0, owner0, chunks, owner) && made !! owner0.Keys
    requires chunks.Keys == chunks0.Keys + made && owner.Keys == owner0.Keys + made
    ensures Lives(chunks, owner, live)
  {
    forall p | p in live ensures owner[p].chunk in chunks && live[p] <= chunks[owner[p].chunk].elmSize {
      assert SameShape(chunks0[owner0[p].chunk], chunks[owner[p].chunk]);
    }
  }

  lemma LivesAfterBlock(chunks0: Chunks, owner0: map<Addr, Place>, live: map<Addr, nat>, chunks: Chunks,
                        owner: map<Addr, Place>, made: set<Addr>, p: Addr, size: nat)
    requires Lives(chunks0, owner0, live) && Extends(chunks0, owner0, chunks, owner) && made !! owner0.Keys
    requires p !in owner0 && p !in made
    requires chunks.Keys == chunks0.Keys + made && owner.Keys == owner0.Keys + made + {p}
    requires owner[p].chunk in chunks && size <= chunks[owner[p].chunk].elmSize
    ensures p !in live && Lives(chunks, owner, live[p := size])
  {
    forall q | q in live ensures owner[q].chunk in chunks && live[q] <= chunks[owner[q].chunk].elmSize {
      assert SameShape(chunks0[owner0[q].chunk], chunks[owner[q].chunk]);
    }
    assert chunks0.Keys <= owner0.Keys;
  }

  lemma LivesAfterFree(chunks0: Chunks, owner0: map<Addr, Place>, live: map<Addr, nat>, chunks: Chunks, p: Addr)
    requires Lives(chunks0, owner0, live) && p in live && Extends(chunks0, owner0 - {p}, chunks, owner0 - {p})
    requires chunks.Keys == chunks0.Keys
    ensures Lives(chunks, owner0 - {p}, live - {p})
  {
    forall q | q in live && q != p ensures owner0[q].chunk in chunks && live[q] <= chunks[owner0[q].chunk].elmSize {
      assert SameShape(chunks0[owner0[q].chunk], chunks[owner0[q].chunk]);
    }
  }

  /** An address in a slot is part of that slot's chunk and of no other chunk
      of slots, and no large chunk begins there. */
  lemma PartOfOne(chunks: Chunks, start: Addr, nextFree: Addr, owner: map<Addr, Place>, p: Addr, x: Addr)
    requires Shaped(chunks) && Tiled(chunks, start, nextFree) && Owned(chunks, owner)
    requires p in owner && owner[p].Slot? && x in chunks
    ensures owner[p].chunk in chunks && Small(chunks[owner[p].chunk])
    ensures Small(chunks[x]) ==> (IsPart(chunks[x], p) <==> x == owner[p].chunk)
    ensures !Small(chunks[x]) ==> chunks[x].begin != p
  {
    hide Owned, Shaped, Used, First, Max, CountClear, MaxElements, FirstElement, SlotAddr, SmallShape;
    OwnerPlaced(chunks, owner, p);
    var b := owner[p].chunk;
    BlockRange(chunks, owner[p]);
    assert x != b ==> Apart(chunks[x], chunks[b]);
    ChunkNotEmpty(chunks, x);
  }

  lemma ChunkNotEmpty(chunks: Chunks, x: Addr)
    requires Shaped(chunks) && x in chunks
    ensures chunks[x].bytes > 0
  {
    hide CountClear, Used;
  }

  lemma GivesIs(chunks: Chunks, owner: map<Addr, Place>, p: Addr)
    requires Owned(chunks, owner) && p in owner && owner[p].Slot?
    ensures var s := owner[p];
      && s.chunk in chunks && ValidSmall(chunks[s.chunk]) && s.k < Max(chunks[s.chunk])
      && Used(chunks[s.chunk].usebits, s.k) && IsPart(chunks[s.chunk], p) && Position(chunks[s.chunk], p) == s.k
  {
    hide Owned, Used, First, Max, CountClear, MaxElements, FirstElement, SlotAddr, SmallShape, Position;
    OwnerPlaced(chunks, owner, p);
    var s := owner[p];
    SlotRange(chunks[s.chunk], s.k);
    PositionOfSlot(chunks[s.chunk], s.k);
  }
}
