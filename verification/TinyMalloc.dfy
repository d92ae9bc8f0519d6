/** The allocator: blocks handed out from size classes, with the chunk
    descriptors in blocks of its own. */
module TinyMalloc {
  import opened TinyChunk
  import opened TinyHeap

  class MemBlock {
    const start: Addr
    var nextFree: Addr
    var inAllocChunk: bool
    var buckets: seq<Addr>
    var nfrees: seq<nat>
    var large: Addr
    /** The descriptors and bitmaps in memory, by descriptor address. */
    var chunks: Chunks
    /** The rotating start of alloc_free, shared by all chunks. */
    var rand: nat

    /** The lists behind the pointers. */
    ghost var lists: seq<seq<Addr>>
    ghost var larges: seq<Addr>
    /** The blocks in use, and which of them are the user's, with the sizes
        asked for. */
    ghost var owner: map<Addr, Place>
    ghost var live: map<Addr, nat>

    ghost predicate Core()
      reads `nextFree, `buckets, `nfrees, `large, `chunks, `lists, `larges, `owner
    {
      Sound(chunks, start, nextFree, buckets, nfrees, large, lists, larges, owner)
    }

    /** What holds whenever no call is under way. */
    ghost predicate Valid()
      reads this
    {
      Core() && Lives(chunks, owner, live) && nfrees[DESC_TYPE] >= 1 && !inAllocChunk
    }

    /** The counter of a class, made safe for use in contracts. */
    ghost function FreeSlots(t: nat): nat
      reads `nfrees
    {
      if t < |nfrees| then nfrees[t] else 0
    }

    // ----------------------------------------------------------------
    // Lists.

    /** put_front: a new chunk (prev NULL) or one that follows prev becomes the
        head; the other chunks keep their order. */
    method PutFront(a: Addr, prev: Addr)
      requires |buckets| == |lists| == TYPES && a in chunks && Small(chunks[a]) && a != NULL
      requires var t := TypeOf(chunks[a].elmSize);
        t < TYPES && Linked(chunks, buckets[t], lists[t]) && Precedes(lists[t], prev, a)
      modifies `chunks, `buckets, `lists
      ensures |buckets| == |lists| == TYPES
      ensures var t := TypeOf(old(chunks)[a].elmSize);
        && FrontedIn(old(chunks), chunks, old(lists[t]), a)
        && buckets == old(buckets)[t := a] && lists == old(lists)[t := Fronted(old(lists[t]), a)]
    {
      hide SmallShape, TypeOf, Linked, Precedes, FrontedIn, Fronted;
      var t := GetType(chunks[a].elmSize);
      ghost var s := lists[t];
      PutFrontFronts(chunks, buckets[t], s, prev, a);
      lists := lists[t := Fronted(s, a)];
      if a == buckets[t] {
        return;
      }
      if prev != NULL {
        chunks := SetNext(chunks, prev, chunks[a].next);
      }
      chunks := SetNext(chunks, a, buckets[t]);
      buckets := buckets[t := a];
    }

    /** put_large for a chunk just made. */
    method PutLarge(d: Addr) returns (ghost i: nat)
      requires d in chunks && Linked(chunks, large, larges) && SortedBySize(chunks, larges)
      modifies `chunks, `large, `larges
      ensures forall k :: 0 <= k < |old(larges)| ==> old(larges)[k] in old(chunks)
      ensures IsPlace(old(chunks), old(larges), old(chunks)[d].elmSize, i)
      ensures chunks == PutSorted(old(chunks), old(larges), i, d)
      ensures larges == Inserted(old(larges), i, d) && large == HeadOf(larges)
    {
      hide Linked, Distinct;
      var ptr := large;
      i := 0;
      ghost var s := larges;
      LinkAt(chunks, large, s, 0);
      if ptr == NULL || chunks[ptr].elmSize >= chunks[d].elmSize {
        chunks := SetNext(chunks, d, large);
        large := d;
        larges := Inserted(s, i, d);
        return;
      }
      var last := NULL;
      while ptr != NULL
        invariant i <= |s| && ptr == (if i < |s| then s[i] else NULL)
        invariant i > 0 ==> last == s[i - 1]
        invariant chunks == old(chunks) && large == old(large) && larges == s
        invariant forall k :: 0 <= k < i ==> chunks[s[k]].elmSize < chunks[d].elmSize
        invariant i == 0 ==> ptr == large
        decreases |s| - i
      {
        LinkAt(chunks, large, s, i);
        if chunks[ptr].elmSize < chunks[d].elmSize {
          last := ptr;
          ptr := chunks[ptr].next;
          i := i + 1;
          continue;
        }
        chunks := SetNext(chunks, d, ptr);
        chunks := SetNext(chunks, last, d);
        larges := Inserted(s, i, d);
        return;
      }
      LinkAt(chunks, large, s, i);
      chunks := SetNext(chunks, last, d);
      larges := Inserted(s, i, d);
    }

    // ----------------------------------------------------------------
    // Small blocks.

    /** The first chunk of the class with a free slot. */
    method FindFree(t: nat) returns (a: Addr, prev: Addr)
      requires Core() && t < TYPES && FreeSlots(t) > 0
      ensures |lists| == TYPES && a in lists[t] && a in chunks && chunks[a].nfree > 0 && Precedes(lists[t], prev, a)
    {
      hide Shaped, Tiled, Owned, Larges, Small, TypeOf, SumFree, Distinct, Linked;
      BucketAt(chunks, buckets, nfrees, lists, t);
      ghost var s := lists[t];
      InChunks(chunks, t, buckets[t], nfrees[t], s);
      SomeFree(chunks, s);
      ghost var i: nat := 0;
      a, prev := buckets[t], NULL;
      LinkAt(chunks, buckets[t], s, 0);
      while a != NULL && chunks[a].nfree == 0
        invariant i <= |s| && a == (if i < |s| then s[i] else NULL) && prev == PrevIn(s, i)
        invariant forall k :: 0 <= k < i ==> chunks[s[k]].nfree == 0
        invariant a != NULL ==> a in chunks
        decreases |s| - i
      {
        LinkAt(chunks, buckets[t], s, i);
        prev := a;
        a := chunks[a].next;
        i := i + 1;
        LinkAt(chunks, buckets[t], s, i);
      }
      LinkAt(chunks, buckets[t], s, i);
      assert i < |s| && s[i] == a && prev == PrevIn(s, i);
    }

    /** The end of _alloc_small: a slot of the chunk at a is taken, and the
        chunk moves to the front unless it is now full. */
    method TakeSlot(t: nat, a: Addr, prev: Addr) returns (p: Addr)
      requires Core() && t < TYPES && FreeSlots(t) > 0
      requires |lists| == TYPES && a in lists[t] && a in chunks && chunks[a].nfree > 0 && Precedes(lists[t], prev, a)
      modifies `chunks, `buckets, `lists, `nfrees, `owner, `rand
      ensures Core() && p !in old(owner) && owner.Keys == old(owner.Keys) + {p}
      ensures owner[p].Slot? && owner[p].chunk in chunks && TypeOf(chunks[owner[p].chunk].elmSize) == t
      ensures Small(chunks[owner[p].chunk])
      ensures chunks.Keys == old(chunks.Keys) && Extends(old(chunks), old(owner), chunks, owner)
      ensures t < |old(nfrees)| && old(nfrees)[t] > 0 && nfrees == old(nfrees)[t := old(nfrees)[t] - 1]
    {
      hide Shaped, Tiled, Owned, Buckets, Larges, SmallShape, TypeOf, ValidSmall, SlotAddr, FrontedIn, Fronted, Linked,
           Extends;
      ghost var chunks0, owner0 := chunks, owner;
      ListOf(chunks, buckets, nfrees, lists, t);
      SmallIsValid(chunks, a);
      var c;
      ghost var k;
      p, c, rand, k := TinyChunk.Alloc(chunks[a], rand);
      assert Takes(chunks, a, k, c) && SameShape(chunks[a], c);
      TakeKeepsMemory(chunks, start, nextFree, owner, a, k, c);
      BucketsRecount(chunks, buckets, nfrees, lists, t, a, c, nfrees[t] - 1);
      SameKind(chunks[a], c);
      LargesElsewhere(chunks, chunks[a := c], large, larges);
      owner := owner[p := Slot(a, k)];
      chunks := chunks[a := c];
      ghost var chunks1, n := chunks, nfrees[t] - 1;
      if c.nfree != 0 {
        ListOf(chunks, buckets, nfrees[t := n], lists, t);
        PutFront(a, prev);
        FrontedRelinks(chunks1, chunks, old(lists)[t], a);
        BucketsFronted(chunks1, chunks, old(buckets), nfrees[t := n], old(lists), t, a);
        RelinkedKeeps(chunks1, chunks, start, nextFree, owner);
        LargesRelinked(chunks1, chunks, large, larges, old(lists)[t], a);
        ExtendsRelinked(chunks0, owner0, chunks1, owner, chunks);
      }
      nfrees := nfrees[t := nfrees[t] - 1];
      ExtendsKeeps(chunks0, owner0, chunks, owner, a);
      SameKind(chunks0[a], chunks[a]);
    }

    // ----------------------------------------------------------------
    // New chunks.

    method AddSmall(t: nat, d: Addr, c: Chunk)
      requires Core() && 1 <= t <= 6 && d !in chunks && DescriptorIn(chunks, owner, d)
      requires Fresh(c, nextFree) && ValidSmall(c) && TypeOf(c.elmSize) == t
      modifies `chunks, `buckets, `lists, `nfrees, `nextFree
      ensures Core() && nextFree == old(nextFree) + c.bytes
      ensures chunks.Keys == old(chunks).Keys + {d} && Extends(old(chunks)[d := c], owner, chunks, owner)
      ensures |old(nfrees)| == TYPES && nfrees == old(nfrees)[t := old(nfrees)[t] + c.nfree]
      ensures |lists| == TYPES && d in lists[t] && chunks[d].nfree == c.nfree && Precedes(lists[t], NULL, d)
      ensures |buckets| == TYPES && buckets[t] == d
    {
      hide Extends, Buckets, Larges, Shaped, Tiled, Owned, SmallShape, TypeOf, CountClear, Linked, FrontedIn, Used;
      ghost var chunks0 := chunks;
      NewInLists(chunks, buckets, nfrees, lists, t, d, c);
      DescriptorNotNull(chunks, start, nextFree, owner, d);
      NewKeepsMemory(chunks, start, nextFree, owner, d, c);
      LargesElsewhere(chunks, chunks[d := c], large, larges);
      ListOf(chunks, buckets, nfrees, lists, t);
      chunks := chunks[d := c];
      nextFree := nextFree + c.bytes;
      ghost var chunks1 := chunks;
      PutFront(d, NULL);
      FrontedRelinks(chunks1, chunks, old(lists)[t], d);
      BucketsGrown(chunks0, chunks, old(buckets), nfrees, old(lists), t, d, c);
      RelinkedKeeps(chunks1, chunks, start, nextFree, owner);
      LargesRelinked(chunks1, chunks, large, larges, old(lists)[t], d);
      ExtendsItself(chunks1, owner);
      ExtendsRelinked(chunks1, owner, chunks1, owner, chunks);
      nfrees := nfrees[t := nfrees[t] + c.nfree];
      assert lists[t][0] == d && PrevIn(lists[t], 0) == NULL;
    }

    method AddLarge(d: Addr, c: Chunk)
      requires Core() && d !in chunks && DescriptorIn(chunks, owner, d)
      requires Fresh(c, nextFree) && ValidLarge(c)
      modifies `chunks, `large, `larges, `owner, `nextFree
      ensures Core() && nextFree == old(nextFree) + c.bytes && old(nextFree) !in old(owner)
      ensures chunks.Keys == old(chunks).Keys + {d} && Extends(old(chunks)[d := c], old(owner), chunks, owner)
      ensures owner == old(owner)[old(nextFree) := Whole(d)]
    {
      hide Extends, Buckets, Larges, Shaped, Tiled, Owned, SmallShape, LargeShape, TypeOf, CountClear, Linked, Used,
           SortedBySize, PutSorted, Inserted;
      ghost var chunks0 := chunks;
      EitherKind(c);
      DescriptorNotNull(chunks, start, nextFree, owner, d);
      NewKeepsMemory(chunks, start, nextFree, owner, d, c);
      LargesLinked(chunks, large, larges, d, c);
      LargesAre(chunks, large, larges);
      BucketsElsewhere(chunks, chunks[d := c], buckets, nfrees, lists);
      chunks := chunks[d := c];
      owner := owner[nextFree := Whole(d)];
      nextFree := nextFree + c.bytes;
      ghost var chunks1 := chunks;
      ghost var i := PutLarge(d);
      LargesGrown(chunks0, old(large), old(larges), d, c, i);
      PutSortedRelinks(chunks1, old(large), old(larges), i, d);
      RelinkedKinds(chunks1, chunks);
      RelinkedKeeps(chunks1, chunks, start, nextFree, owner);
      BucketsElsewhere(chunks1, chunks, buckets, nfrees, lists);
      ExtendsItself(chunks1, owner);
      ExtendsRelinked(chunks1, owner, chunks1, owner, chunks);
      ExtendsOwner(chunks1, old(owner), old(nextFree), Whole(d), chunks, owner);
    }

    /** _alloc_chunk: the descriptor comes from the allocator's own class, the
        memory from the bump pointer. */
    method AllocChunkBody(t: nat, bytes: nat) returns (d: Addr)
      requires Core() && inAllocChunk && FreeSlots(DESC_TYPE) > 0 && ChunkRequest(t, bytes)
      modifies `chunks, `buckets, `lists, `nfrees, `owner, `rand, `nextFree, `large, `larges, `inAllocChunk
      ensures Core() && inAllocChunk && nextFree == old(nextFree) + bytes
      ensures ChunkAdded(old(chunks), old(owner), old(nextFree), chunks, owner, t, bytes, d)
      ensures ChunkCounts(old(nfrees), nfrees, t)
      ensures t != LARGE_CHUNK ==> Ready(d, t)
      decreases 1
    {
      hide Core, ChunkAdded, SlotAdded, ChunkCounts, SlotCounts, Ready, ChunkRequest;
      ghost var chunks0, owner0, nfrees0 := chunks, owner, nfrees;
      CoreSizes();
      ghost var made;
      d, made := AllocSmall(DESC_TYPE);
      OwnerBelow(chunks0, owner0, made, d);
      if d == NULL {
        assert false;
      }
      Install(t, bytes, d, chunks0, owner0, nfrees0);
    }

    lemma OwnerBelow(chunks0: Chunks, owner0: map<Addr, Place>, made: set<Addr>, d: Addr)
      requires Core() && SlotAdded(chunks0, owner0, chunks, owner, DESC_TYPE, d, made)
      ensures d != NULL
    {
      hide Buckets, Larges, Shaped, Owned, Extends, SmallShape, TypeOf;
      OwnedBelow(chunks, start, nextFree, owner, d);
    }

    /** The new descriptor is written and listed. */
    method Install(t: nat, bytes: nat, d: Addr, ghost chunks0: Chunks, ghost owner0: map<Addr, Place>,
                   ghost nfrees0: seq<nat>)
      requires Core() && ChunkRequest(t, bytes) && SlotAdded(chunks0, owner0, chunks, owner, DESC_TYPE, d, {})
      requires SlotCounts(nfrees0, nfrees, DESC_TYPE) && |nfrees0| == TYPES && nfrees0[DESC_TYPE] > 0
      requires chunks0.Keys <= owner0.Keys
      modifies `chunks, `buckets, `lists, `nfrees, `owner, `nextFree, `large, `larges
      ensures Core() && nextFree == old(nextFree) + bytes
      ensures ChunkAdded(chunks0, owner0, old(nextFree), chunks, owner, t, bytes, d)
      ensures ChunkCounts(nfrees0, nfrees, t)
      ensures t != LARGE_CHUNK ==> Ready(d, t)
    {
      hide Buckets, Larges, Shaped, Tiled, Owned, Extends, SlotAdded, ChunkAdded, SmallShape, LargeShape, ValidSmall, ValidLarge,
           DescriptorIn, GetSize, TypeOf, Used, Capacity, Max, First, Precedes;
      ghost var chunks1, owner1, nextFree1 := chunks, owner, nextFree;
      NowDescriptor(chunks0, owner0, chunks, owner, d);
      RequestShape(t, bytes);
      var elm := if t == LARGE_CHUNK then bytes else GetSize(t);
      var c := NewChunk(elm, nextFree, bytes);
      if t == LARGE_CHUNK {
        EitherKind(c);
        AddLarge(d, c);
      } else {
        FreshCount(t, c);
        AddSmall(t, d, c);
      }
      ChunkIsAdded(chunks0, owner0, nextFree1, chunks1, owner1, chunks, owner, t, bytes, d, c);
    }

    /** A chunk of class t that _alloc_small may take a slot of at once. */
    ghost predicate Ready(d: Addr, t: nat)
      reads `chunks, `lists
    {
      |lists| == TYPES && t < TYPES && d in lists[t] && d in chunks && chunks[d].nfree > 0 && Precedes(lists[t], NULL, d)
    }

    method AllocChunk(t: nat, bytes: nat) returns (d: Addr)
      requires Core() && !inAllocChunk && FreeSlots(DESC_TYPE) > 0 && ChunkRequest(t, bytes)
      modifies `chunks, `buckets, `lists, `nfrees, `owner, `rand, `nextFree, `large, `larges, `inAllocChunk
      ensures Core() && !inAllocChunk && nextFree == old(nextFree) + bytes
      ensures ChunkAdded(old(chunks), old(owner), old(nextFree), chunks, owner, t, bytes, d)
      ensures ChunkCounts(old(nfrees), nfrees, t)
      ensures t != LARGE_CHUNK ==> Ready(d, t)
      decreases 2
    {
      hide Core, ChunkAdded, ChunkCounts, Ready;
      assert !inAllocChunk;
      inAllocChunk := true;
      d := AllocChunkBody(t, bytes);
      inAllocChunk := false;
    }

    /** _alloc_small: a slot of a chunk that has one, or of a new chunk. */
    method AllocSmall(t: nat) returns (p: Addr, ghost made: set<Addr>)
      requires Core() && 1 <= t <= 6
      requires FreeSlots(t) > 0 || (!inAllocChunk && t != DESC_TYPE && FreeSlots(DESC_TYPE) > 0)
      modifies `chunks, `buckets, `lists, `nfrees, `owner, `rand, `nextFree, `large, `larges, `inAllocChunk
      ensures Core() && inAllocChunk == old(inAllocChunk)
      ensures SlotAdded(old(chunks), old(owner), chunks, owner, t, p, made)
      ensures made == {} <==> old(FreeSlots(t)) > 0
      ensures nextFree == old(nextFree) + (if old(FreeSlots(t)) > 0 then 0 else CHUNK_BYTES)
      ensures SlotCounts(old(nfrees), nfrees, t)
      decreases if FreeSlots(t) > 0 then 0 else 3
    {
      hide Shaped, Tiled, Owned, Buckets, Larges, Extends, Precedes, ChunkAdded, SlotAdded, SmallShape, TypeOf;
      ghost var chunks0, owner0 := chunks, owner;
      CoreSizes();
      var a, prev := NULL, NULL;
      made := {};
      if nfrees[t] > 0 {
        a, prev := FindFree(t);
        ExtendsItself(chunks0, owner0);
      } else {
        a := AllocChunk(t, CHUNK_BYTES);
        made := {a};
        AddedExtends(chunks0, owner0, old(nextFree), chunks, owner, t, CHUNK_BYTES, a);
      }
      ghost var chunks1, owner1 := chunks, owner;
      if a == NULL {
        SmallIsValid(chunks, a);
        assert false;
      }
      p := TakeSlot(t, a, prev);
      AfterTake(chunks0, owner0, chunks1, owner1, chunks, owner, t, p, made);
    }

    lemma CoreSizes()
      requires Core()
      ensures |buckets| == |nfrees| == |lists| == TYPES && chunks.Keys <= owner.Keys
    {
      hide Larges, Shaped, Tiled, Owned, Bucket;
      DescriptorsOwned(chunks, owner);
    }

    // ----------------------------------------------------------------
    // The public operations.

    constructor (mem: Addr)
      ensures start == mem && nextFree == mem && !inAllocChunk && chunks == map[] && large == NULL
      ensures buckets == seq(TYPES, _ => NULL) && nfrees == seq(TYPES, _ => 0)
    {
      start, nextFree, inAllocChunk := mem, mem, false;
      buckets, nfrees := seq(TYPES, _ => NULL), seq(TYPES, _ => 0);
      large, chunks, rand := NULL, map[], 0;
      lists, larges, owner, live := [], [], map[], map[];
    }

    /** init: a temporary chunk gives the slot for the descriptor of the chunk
        that is to stand in its place, and that chunk takes the same slot. */
    method Init()
      requires start > 0 && nextFree == start && !inAllocChunk && chunks == map[] && large == NULL
      requires buckets == seq(TYPES, _ => NULL) && nfrees == seq(TYPES, _ => 0)
      modifies this
      ensures Valid() && live == map[] && nextFree == start + BOOT_BYTES && FreeSlots(DESC_TYPE) == 6
    {
      hide Used, Taken, Linked, StartOf, Bucket, Larges, Owned, Shaped, Tiled, FrontedIn, SmallShape, FirstElement,
           MaxElements, CountClear, Fronted, Linked;
      var t := GetType(DESC_SIZE);
      Sizes();
      assert GetSize(t) == DESC_SIZE;
      BootShape();
      var boot := NewChunk(GetSize(t), start, BOOT_BYTES);
      var ptr;
      ghost var k;
      StartOfFew(rand % 8, 7);
      ptr, boot, rand, k := TinyChunk.Alloc(boot, rand);
      var first := NewChunk(GetSize(t), start, BOOT_BYTES);
      StartOfFew(rand % 8, 7);
      var own;
      ghost var blank := first;
      own, first, rand, k := TinyChunk.Alloc(first, rand);
      BootMemory(start, ptr, blank, first);
      chunks := map[ptr := first];
      owner := map[ptr := Slot(ptr, 0)];
      live := map[];
      nextFree := nextFree + first.bytes;
      ListBoot(ptr, first, t);
    }

    method ListBoot(ptr: Addr, first: Chunk, t: nat)
      requires chunks == map[ptr := first] && large == NULL && t < TYPES
      requires buckets == seq(TYPES, _ => NULL) && nfrees == seq(TYPES, _ => 0)
      requires Small(first) && TypeOf(first.elmSize) == t && ptr != NULL
      requires Shaped(chunks) && Tiled(chunks, start, nextFree) && Owned(chunks, owner)
      modifies `chunks, `buckets, `nfrees, `lists, `larges
      ensures Core() && chunks.Keys == {ptr}
      ensures |nfrees| == TYPES && nfrees[t] == first.nfree
    {
      hide Linked, Bucket, Larges, Owned, Shaped, Tiled, FrontedIn, Small, CountClear, Fronted, TypeOf;
      BootLists(ptr, first);
      lists, larges := seq(TYPES, _ => []), [];
      assert lists[t] == [];
      ghost var chunks1 := chunks;
      NewInLists(map[], buckets, nfrees, lists, t, ptr, first);
      PutFront(ptr, NULL);
      FrontedRelinks(chunks1, chunks, [], ptr);
      BucketsGrown(map[], chunks, seq(TYPES, _ => NULL), nfrees, seq(TYPES, _ => []), t, ptr, first);
      RelinkedKeeps(chunks1, chunks, start, nextFree, owner);
      LargesRelinked(chunks1, chunks, large, larges, [], ptr);
      nfrees := nfrees[t := first.nfree];
    }

    /** make_sure: whoever comes next can still get a descriptor. */
    method MakeSure()
      requires Valid()
      modifies `chunks, `buckets, `lists, `nfrees, `owner, `rand, `nextFree, `large, `larges, `inAllocChunk
      ensures Valid() && FreeSlots(DESC_TYPE) >= 2 && Extends(old(chunks), old(owner), chunks, owner)
      ensures nextFree == old(nextFree) + SureRoom(old(FreeSlots(DESC_TYPE)))
      ensures forall u :: u != DESC_TYPE ==> FreeSlots(u) == old(FreeSlots(u))
      ensures FreeSlots(DESC_TYPE) == SureFree(old(FreeSlots(DESC_TYPE)))
    {
      hide Shaped, Tiled, Owned, Buckets, Larges, Extends, Ready, LargeShape, Lives;
      CoreSizes();
      if nfrees[DESC_TYPE] == 1 {
        var d := AllocChunk(DESC_TYPE, CHUNK_BYTES);
        LivesAfterChunk(old(chunks), old(owner), live, chunks, owner, {d});
        assert Capacity(DESC_TYPE) == 31 by { Sizes(); }
      } else {
        ExtendsItself(chunks, owner);
      }
    }

    method AllocLarge(size: nat) returns (p: Addr)
      requires Valid() && 256 < size <= MAX_REQUEST
      modifies this
      ensures Valid() && p !in old(live) && live == old(live)[p := size]
      ensures Extends(old(chunks), old(owner), chunks, owner)
      ensures nextFree == old(nextFree) + SureRoom(old(FreeSlots(DESC_TYPE))) + Rounded(size)
    {
      hide Shaped, Tiled, Owned, Buckets, Larges, Extends, Lives, Ready;
      MakeSure();
      ghost var chunks1, owner1 := chunks, owner;
      var bytes := Rounded(size);
      CoreSizes();
      var d := AllocChunk(LARGE_CHUNK, bytes);
      p := chunks[d].begin;
      LivesAfterBlock(chunks1, owner1, live, chunks, owner, {d}, p, size);
      live := live[p := size];
      ExtendsOn(old(chunks), old(owner), chunks1, owner1, chunks, owner);
    }

    /** alloc_small for a request of the class. */
    method AllocOfClass(t: nat, size: nat) returns (p: Addr)
      requires Valid() && 1 <= t <= 6 && size <= GetSize(t)
      modifies this
      ensures Valid() && p !in old(live) && live == old(live)[p := size]
      ensures Extends(old(chunks), old(owner), chunks, owner)
      ensures nextFree == old(nextFree) + SureRoom(old(FreeSlots(DESC_TYPE)))
                          + (if t != DESC_TYPE && old(FreeSlots(t)) == 0 then CHUNK_BYTES else 0)
    {
      hide Shaped, Tiled, Owned, Buckets, Larges, Extends, Lives, GetSize, TypeOf, SmallShape;
      MakeSure();
      ghost var chunks1, owner1 := chunks, owner;
      CoreSizes();
      ghost var made;
      p, made := AllocSmall(t);
      SlotHolds(chunks[owner[p].chunk], t);
      LivesAfterBlock(chunks1, owner1, live, chunks, owner, made, p, size);
      live := live[p := size];
      ExtendsOn(old(chunks), old(owner), chunks1, owner1, chunks, owner);
    }

    /** A new block of at least the size asked for, apart from all the others and
        from every descriptor and bitmap; the memory in use grows by the chunks
        this needs and no more. */
    method Alloc(size: nat) returns (p: Addr)
      requires Valid() && size <= MAX_REQUEST
      modifies this
      ensures Valid() && p !in old(live) && live == old(live)[p := size]
      ensures Extends(old(chunks), old(owner), chunks, owner)
      ensures start <= p && p + size <= nextFree
      ensures forall q :: q in old(live) ==> Disjoint(p, size, q, old(live)[q])
      ensures forall a :: a in chunks ==> Disjoint(p, size, a, DESC_SIZE)
      ensures forall a :: a in chunks && Small(chunks[a]) ==> Disjoint(p, size, chunks[a].begin, First(chunks[a]))
      ensures nextFree == old(nextFree) + SureRoom(old(FreeSlots(DESC_TYPE)))
                          + (if size > 256 then Rounded(size)
                             else if TypeOf(size) != DESC_TYPE && old(FreeSlots(TypeOf(size))) == 0 then CHUNK_BYTES
                             else 0)
    {
      hide Valid, Extends, Disjoint, First, Small;
      var t := GetType(size);
      if t == LARGE_CHUNK {
        p := AllocLarge(size);
      } else {
        ClassFits(size, t);
        p := AllocOfClass(t, size);
      }
      Safe(p);
      forall q | q in old(live) ensures Disjoint(p, size, q, old(live)[q]) {
        assert q in live && q != p && live[q] == old(live)[q];
      }
    }

    lemma Safe(p: Addr)
      requires Valid() && p in live
      ensures start <= p && p + live[p] <= nextFree
      ensures forall q :: q in live && q != p ==> Disjoint(p, live[p], q, live[q])
      ensures forall a :: a in chunks ==> Disjoint(p, live[p], a, DESC_SIZE)
      ensures forall a :: a in chunks && Small(chunks[a]) ==> Disjoint(p, live[p], chunks[a].begin, First(chunks[a]))
    {
      hide Shaped, Tiled, Owned, Buckets, Larges, Lives, Disjoint, First;
      LiveBlocksAreSafe(chunks, start, nextFree, owner, live, p);
    }

    /** find_chunk_type. */
    method FindChunkType(t: nat, p: Addr) returns (a: Addr, prev: Addr)
      requires Core() && t < TYPES
      requires p in owner && owner[p].Slot? && owner[p].chunk in chunks && Small(chunks[owner[p].chunk])
      ensures a == (if TypeOf(chunks[owner[p].chunk].elmSize) == t then owner[p].chunk else NULL)
      ensures a != NULL ==> |lists| == TYPES && Precedes(lists[t], prev, a)
    {
      hide Shaped, Tiled, Owned, Buckets, Larges, SmallShape, TypeOf, Linked, Precedes;
      ListOf(chunks, buckets, nfrees, lists, t);
      ghost var s, b := lists[t], owner[p].chunk;
      ghost var i: nat := 0;
      a, prev := buckets[t], NULL;
      LinkAt(chunks, buckets[t], s, 0);
      while a != NULL
        invariant i <= |s| && a == (if i < |s| then s[i] else NULL) && prev == PrevIn(s, i)
        invariant forall k :: 0 <= k < i ==> s[k] != b
        decreases |s| - i
      {
        LinkAt(chunks, buckets[t], s, i);
        assert i < |s| && s[i] in s;
        PartOfOne(chunks, start, nextFree, owner, p, a);
        if IsPart(chunks[a], p) {
          PrecedesAt(s, i);
          return;
        }
        prev := a;
        a := chunks[a].next;
        i := i + 1;
        LinkAt(chunks, buckets[t], s, i);
      }
      LinkAt(chunks, buckets[t], s, i);
    }

    /** find_chunk for a block in a slot: the classes are searched up to 128
        bytes, then the large chunks. */
    method FindChunk(p: Addr) returns (a: Addr, prev: Addr)
      requires Core() && p in owner && owner[p].Slot? && owner[p].chunk in chunks && Small(chunks[owner[p].chunk])
      ensures var t := TypeOf(chunks[owner[p].chunk].elmSize);
        && a == (if t <= 5 then owner[p].chunk else NULL)
        && (a != NULL ==> |lists| == TYPES && Precedes(lists[t], prev, a))
    {
      hide Shaped, Tiled, Owned, Buckets, SmallShape, TypeOf, Linked, Precedes, SortedBySize;
      ghost var b := owner[p].chunk;
      OwnChunk(p);
      prev := NULL;
      for i := 2 to 8
        invariant TypeOf(chunks[b].elmSize) >= i - 2
      {
        a, prev := FindChunkType(i - 2, p);
        if a != NULL {
          return;
        }
      }
      a := large;
      ghost var n: nat := 0;
      LinkAt(chunks, large, larges, 0);
      while a != NULL
        invariant n <= |larges| && a == (if n < |larges| then larges[n] else NULL)
        decreases |larges| - n
      {
        LinkAt(chunks, large, larges, n);
        assert n < |larges| && larges[n] in larges;
        PartOfOne(chunks, start, nextFree, owner, p, a);
        if chunks[a].begin == p {
          assert false;
        }
        a := chunks[a].next;
        n := n + 1;
        LinkAt(chunks, large, larges, n);
      }
    }

    lemma OwnChunk(p: Addr)
      requires Core() && p in owner && owner[p].Slot?
      ensures owner[p].chunk in chunks && owner[p].chunk != NULL && Small(chunks[owner[p].chunk])
      ensures 1 <= TypeOf(chunks[owner[p].chunk].elmSize) <= 6
    {
      hide Shaped, Tiled, Owned, Buckets, Larges, SmallShape, TypeOf, GetSize, Position, Used, Max;
      GivesIs(chunks, owner, p);
      SmallIsValid(chunks, owner[p].chunk);
      SlotsFit(chunks[owner[p].chunk].elmSize, chunks[owner[p].chunk].bytes);
    }

    /** The rest of free: the bit is cleared, the chunk moves to the front and
        the counters go up. */
    method Release(a: Addr, prev: Addr, p: Addr)
      requires Core() && p in owner && p !in chunks && owner[p].Slot? && a == owner[p].chunk
      requires a in chunks && Small(chunks[a]) && TypeOf(chunks[a].elmSize) < TYPES && a != NULL
      requires |lists| == TYPES && Precedes(lists[TypeOf(chunks[a].elmSize)], prev, a)
      modifies `chunks, `buckets, `lists, `nfrees, `owner
      ensures Core() && owner == old(owner) - {p} && chunks.Keys == old(chunks).Keys
      ensures Extends(old(chunks), owner, chunks, owner)
      ensures var t := TypeOf(old(chunks)[a].elmSize);
        t < |old(nfrees)| && nfrees == old(nfrees)[t := old(nfrees)[t] + 1]
    {
      hide Shaped, Tiled, Owned, Buckets, Larges, SmallShape, TypeOf, ValidSmall, SlotAddr, FrontedIn, Fronted, Linked,
           Extends, Used, Given, Max, First, CountClear;
      ghost var chunks0 := chunks;
      GivesIs(chunks, owner, p);
      var c := TinyChunk.Free(chunks[a], p);
      var t := GetType(c.elmSize);
      CoreSizes();
      ListOf(chunks, buckets, nfrees, lists, t);
      assert Gives(chunks, a, owner[p].k, c) && SameShape(chunks[a], c);
      GiveKeepsMemory(chunks, start, nextFree, owner, p, c);
      ghost var n := nfrees[t] + 1;
      BucketsRecount(chunks, buckets, nfrees, lists, t, a, c, n);
      SameKind(chunks[a], c);
      LargesElsewhere(chunks, chunks[a := c], large, larges);
      owner := owner - {p};
      chunks := chunks[a := c];
      ghost var chunks1 := chunks;
      ListOf(chunks, buckets, nfrees[t := n], lists, t);
      PutFront(a, prev);
      FrontedRelinks(chunks1, chunks, old(lists)[t], a);
      BucketsFronted(chunks1, chunks, old(buckets), nfrees[t := n], old(lists), t, a);
      RelinkedKeeps(chunks1, chunks, start, nextFree, owner);
      LargesRelinked(chunks1, chunks, large, larges, old(lists)[t], a);
      ExtendsRelinked(chunks0, owner, chunks1, owner, chunks);
      nfrees := nfrees[t := nfrees[t] + 1];
    }

    /** free of a block that came from a slot. Its assert fails exactly for the
        256-byte class; else the slot is free again and nothing else is. */
    method Free(p: Addr) returns (ok: bool)
      requires Valid() && p in live && owner[p].Slot?
      modifies this
      ensures Valid() && nextFree == old(nextFree) && chunks.Keys == old(chunks).Keys
      ensures old(owner)[p].chunk in old(chunks)
      ensures var t := TypeOf(old(chunks)[old(owner)[p].chunk].elmSize);
        && (ok <==> t <= 5)
        && forall u :: FreeSlots(u) == old(FreeSlots(u)) + (if ok && u == t then 1 else 0)
      ensures ok ==> live == old(live) - {p} && owner == old(owner) - {p} && Extends(old(chunks), owner, chunks, owner)
      ensures !ok ==> live == old(live) && owner == old(owner) && chunks == old(chunks) && buckets == old(buckets)
    {
      hide Shaped, Tiled, Owned, Buckets, Larges, SmallShape, TypeOf, Extends, Precedes;
      OwnChunk(p);
      var a, prev := FindChunk(p);
      ok := a != NULL;
      if ok {
        CoreSizes();
        Release(a, prev, p);
        LivesAfterFree(old(chunks), old(owner), live, chunks, p);
        live := live - {p};
      }
    }
  }

  /** The boot chunk has seven slots. */
  lemma BootShape()
    ensures SmallShape(DESC_SIZE, BOOT_BYTES) && FirstElement(DESC_SIZE, BOOT_BYTES) == 8
    ensures MaxElements(DESC_SIZE, BOOT_BYTES) == 7
  {
  }

  lemma BootMemory(start: Addr, ptr: Addr, blank: Chunk, c: Chunk)
    requires start > 0 && ValidSmall(blank) && blank.begin == start && blank.elmSize == DESC_SIZE && blank.bytes == BOOT_BYTES
    requires forall k :: 0 <= k < Max(blank) ==> !Used(blank.usebits, k)
    requires Max(blank) > 0 && ptr == SlotAddr(blank, 0) && ValidSmall(c)
    requires c == blank.(usebits := Taken(blank.usebits, 0), nfree := blank.nfree - 1)
    ensures ptr != NULL
    ensures var chunks := map[ptr := c];
      Shaped(chunks) && Tiled(chunks, start, start + BOOT_BYTES) && Owned(chunks, map[ptr := Slot(ptr, 0)])
  {
    hide Used, Taken, PlacedAt, CountClear, FirstElement, MaxElements, SmallShape, SlotAddr, Max, First;
    var none: Chunks := map[];
    var one, chunks := none[ptr := blank], map[ptr := c];
    SlotRange(blank, 0);
    assert chunks == one[ptr := c];
    EitherKind(blank);
    assert Takes(one, ptr, 0, c);
    AllTaken(one, ptr, 0, c);
    var owner: map<Addr, Place> := map[ptr := Slot(ptr, 0)];
    forall s, p ensures PlacedAt(chunks, s, p) <==> p in owner && owner[p] == s {
      NewPlaced(none, ptr, blank, s, p);
      NotInChunks(none, s, p);
    }
    assert DescriptorIn(chunks, owner, ptr);
  }

  lemma BootLists(ptr: Addr, c: Chunk)
    requires Small(c)
    ensures Buckets(map[], seq(TYPES, _ => NULL), seq(TYPES, _ => 0), seq(TYPES, _ => []))
    ensures Larges(map[ptr := c], NULL, [])
  {
    var none: Chunks := map[];
    forall t | 0 <= t < TYPES ensures Bucket(none, t, NULL, 0, []) {
    }
  }

  /** Sizes whose rounding up to 256 bytes does not pass 32 bits. */
  const MAX_REQUEST: nat := 0xffff_ff00

  function Rounded(size: nat): nat {
    (size + 255) / 256 * 256
  }

  /** What make_sure takes from the memory, and the free descriptor slots it
      leaves. */
  function SureRoom(free: nat): nat {
    if free == 1 then CHUNK_BYTES else 0
  }

  function SureFree(free: nat): nat {
    if free == 1 then 31 else free
  }

  lemma SlotHolds(c: Chunk, t: nat)
    requires Small(c) && TypeOf(c.elmSize) == t
    ensures c.elmSize == GetSize(t)
  {
    SlotsFit(c.elmSize, c.bytes);
  }

  predicate ChunkRequest(t: nat, bytes: nat) {
    if t == LARGE_CHUNK then LargeShape(bytes, bytes) else 1 <= t <= 6 && bytes == CHUNK_BYTES
  }

  /** The slots of a new chunk of class t. */
  function Capacity(t: nat): (r: nat)
    requires 1 <= t <= 6
    ensures r >= 3
  {
    RequestShape(t, CHUNK_BYTES);
    SlotsFit(GetSize(t), CHUNK_BYTES);
    MaxElements(GetSize(t), CHUNK_BYTES)
  }

  /** Free slots of class u once a chunk of class t has been made. */
  function AfterChunk(u: nat, t: nat, free: nat): int {
    free - (if u == DESC_TYPE then 1 else 0) + (if u == t && 1 <= t <= 6 then Capacity(t) else 0)
  }

  /** Free slots of class u once a slot of class t has been taken, where t had
      freeT slots. */
  function AfterSlot(u: nat, t: nat, freeT: nat, free: nat): int {
    (if freeT > 0 then free else AfterChunk(u, t, free)) - (if u == t then 1 else 0)
  }

  ghost predicate ChunkCounts(n0: seq<nat>, n1: seq<nat>, t: nat) {
    |n0| == |n1| == TYPES && forall u :: 0 <= u < TYPES ==> n1[u] == AfterChunk(u, t, n0[u])
  }

  ghost predicate SlotCounts(n0: seq<nat>, n1: seq<nat>, t: nat) {
    |n0| == |n1| == TYPES && t < TYPES && forall u :: 0 <= u < TYPES ==> n1[u] == AfterSlot(u, t, n0[t], n0[u])
  }

  /** A new chunk at the old bump pointer, and nothing moved. */
  ghost predicate ChunkAdded(chunks0: Chunks, owner0: map<Addr, Place>, nextFree0: Addr, chunks: Chunks,
                             owner: map<Addr, Place>, t: nat, bytes: nat, d: Addr) {
    && d !in owner0 && chunks.Keys == chunks0.Keys + {d} && Extends(chunks0, owner0, chunks, owner)
    && chunks[d].begin == nextFree0 && chunks[d].bytes == bytes
    && owner.Keys == owner0.Keys + {d} + (if t == LARGE_CHUNK then {nextFree0} else {})
    && (t == LARGE_CHUNK ==>
          nextFree0 !in owner0 && nextFree0 != d && owner[nextFree0] == Whole(d) && chunks[d].elmSize == bytes)
  }

  /** A slot of class t taken, in a chunk that may be new. */
  ghost predicate SlotAdded(chunks0: Chunks, owner0: map<Addr, Place>, chunks: Chunks, owner: map<Addr, Place>, t: nat,
                            p: Addr, made: set<Addr>) {
    && p !in owner0 && p !in made && made !! owner0.Keys
    && owner.Keys == owner0.Keys + {p} + made && chunks.Keys == chunks0.Keys + made
    && Extends(chunks0, owner0, chunks, owner)
    && owner[p].Slot? && owner[p].chunk in chunks && TypeOf(chunks[owner[p].chunk].elmSize) == t
    && Small(chunks[owner[p].chunk])
  }

  lemma RequestShape(t: nat, bytes: nat)
    requires ChunkRequest(t, bytes)
    ensures t == LARGE_CHUNK ==> LargeShape(bytes, bytes)
    ensures t != LARGE_CHUNK ==> SmallShape(GetSize(t), bytes) && TypeOf(GetSize(t)) == t
  {
    Sizes();
    if t != LARGE_CHUNK {
      ClassFits(0, t);
      assert t == 1 || t == 2 || t == 3 || t == 4 || t == 5 || t == 6;
    }
  }

  lemma NowDescriptor(chunks0: Chunks, owner0: map<Addr, Place>, chunks: Chunks, owner: map<Addr, Place>, d: Addr)
    requires SlotAdded(chunks0, owner0, chunks, owner, DESC_TYPE, d, {})
    requires chunks0.Keys <= owner0.Keys
    ensures DescriptorIn(chunks, owner, d) && d !in chunks0 && chunks.Keys == chunks0.Keys
  {
    hide Extends;
  }

  lemma FreshCount(t: nat, c: Chunk)
    requires 1 <= t <= 6 && c.elmSize == GetSize(t) && c.bytes == CHUNK_BYTES
    ensures Small(c) && Max(c) == Capacity(t) > 0
  {
    RequestShape(t, CHUNK_BYTES);
    SlotsFit(GetSize(t), CHUNK_BYTES);
  }

  lemma ChunkIsAdded(chunks0: Chunks, owner0: map<Addr, Place>, nextFree: Addr, chunks1: Chunks, owner1: map<Addr, Place>,
                     chunks: Chunks, owner: map<Addr, Place>, t: nat, bytes: nat, d: Addr, c: Chunk)
    requires SlotAdded(chunks0, owner0, chunks1, owner1, DESC_TYPE, d, {})
    requires chunks.Keys == chunks1.Keys + {d} && Extends(chunks1[d := c], owner1, chunks, owner)
    requires c.begin == nextFree && c.bytes == bytes && (t == LARGE_CHUNK ==> c.elmSize == bytes)
    requires d !in chunks1
    requires owner == if t == LARGE_CHUNK then owner1[nextFree := Whole(d)] else owner1
    requires t == LARGE_CHUNK ==> nextFree !in owner1
    ensures ChunkAdded(chunks0, owner0, nextFree, chunks, owner, t, bytes, d)
  {
    ExtendsKeeps(chunks1[d := c], owner1, chunks, owner, d);
    assert Extends(chunks1, owner1, chunks1[d := c], owner1);
    ExtendsOn(chunks1, owner1, chunks1[d := c], owner1, chunks, owner);
    ExtendsOn(chunks0, owner0, chunks1, owner1, chunks, owner);
  }

  lemma AddedExtends(chunks0: Chunks, owner0: map<Addr, Place>, nextFree0: Addr, chunks: Chunks,
                     owner: map<Addr, Place>, t: nat, bytes: nat, d: Addr)
    requires ChunkAdded(chunks0, owner0, nextFree0, chunks, owner, t, bytes, d) && t != LARGE_CHUNK
    ensures d !in owner0 && chunks.Keys == chunks0.Keys + {d} && Extends(chunks0, owner0, chunks, owner)
    ensures owner.Keys == owner0.Keys + {d}
  {
    hide Extends;
  }

  lemma AfterTake(chunks0: Chunks, owner0: map<Addr, Place>, chunks1: Chunks, owner1: map<Addr, Place>,
                  chunks: Chunks, owner: map<Addr, Place>, t: nat, p: Addr, made: set<Addr>)
    requires Extends(chunks0, owner0, chunks1, owner1) && Extends(chunks1, owner1, chunks, owner)
    requires made !! owner0.Keys && owner1.Keys == owner0.Keys + made && chunks1.Keys == chunks0.Keys + made
    requires chunks.Keys == chunks1.Keys && p !in owner1 && owner.Keys == owner1.Keys + {p}
    requires owner[p].Slot? && owner[p].chunk in chunks && TypeOf(chunks[owner[p].chunk].elmSize) == t
    requires Small(chunks[owner[p].chunk])
    ensures SlotAdded(chunks0, owner0, chunks, owner, t, p, made)
  {
    hide Extends;
    ExtendsOn(chunks0, owner0, chunks1, owner1, chunks, owner);
  }

  /** A chunk just made at the bump pointer. */
  ghost predicate Fresh(c: Chunk, nextFree: Addr) {
    && c.begin == nextFree && c.next == NULL
    && (ValidSmall(c) ==> forall k :: 0 <= k < Max(c) ==> !Used(c.usebits, k))
  }
}
