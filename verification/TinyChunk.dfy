/** One chunk of the allocator: its geometry, its bitmap and the operations on
    its slots. */
module TinyChunk {
  import Wire

  type Addr = nat

  const NULL: Addr := 0

  /** A chunk descriptor, with the bytes of the bitmap it begins with. */
  datatype Chunk = Chunk(begin: Addr, next: Addr, elmSize: nat, bytes: nat, nfree: nat, usebits: seq<bv8>)

  // ------------------------------------------------------------------
  // Size classes.

  const LARGE_CHUNK: nat := 0xff
  const TYPES: nat := 8
  const BOOT_BYTES: nat := 256
  const CHUNK_BYTES: nat := 1024

  /** sizeof(chunkinfo_t), and the class it falls into. */
  const DESC_SIZE: nat := 32
  const DESC_TYPE: nat := 3

  function Pow2(k: nat): (r: nat)
    ensures r > 0
  {
    if k == 0 then 1 else 2 * Pow2(k - 1)
  }

  function GetSize(t: nat): nat {
    Pow2(t + 2)
  }

  /** The class of a request: 16 bytes for the smallest, else the least power
      of two that holds it. */
  function TypeOf(size: nat): nat {
    if size <= 4 then 2
    else if size <= 8 then 1
    else if size <= 16 then 2
    else if size <= 32 then 3
    else if size <= 64 then 4
    else if size <= 128 then 5
    else if size <= 256 then 6
    else LARGE_CHUNK
  }

  lemma Sizes()
    ensures GetSize(1) == 8 && GetSize(2) == 16 && GetSize(3) == 32
    ensures GetSize(4) == 64 && GetSize(5) == 128 && GetSize(6) == 256
  {
    assert Pow2(3) == 8;
    assert Pow2(5) == 32;
    assert Pow2(7) == 128;
  }

  method GetType(size: nat) returns (t: nat)
    ensures t == TypeOf(size)
  {
    Sizes();
    if size <= 4 {
      return 2;
    }
    if size <= 256 {
      var i := 3;
      while size > Pow2(i)
        invariant 3 <= i <= 8
        invariant size > Pow2(i - 1)
        decreases 8 - i
      {
        i := i + 1;
        assert i <= 8 by { if i == 9 { assert Pow2(8) == 256; } }
      }
      ByCases(size, i);
      return i - 2;
    }
    t := LARGE_CHUNK;
  }

  lemma ByCases(size: nat, i: nat)
    requires 4 < size <= 256 && 3 <= i <= 8 && Pow2(i - 1) < size <= Pow2(i)
    ensures i - 2 == TypeOf(size)
  {
    Sizes();
    assert Pow2(2) == 4;
    assert i == 3 || i == 4 || i == 5 || i == 6 || i == 7 || i == 8;
  }

  /** A request fits its class; above 4 bytes no smaller class would do; and
      the class of a class's own size is that class. */
  lemma ClassFits(size: nat, t: nat)
    requires size <= 256 && 1 <= t <= 6
    ensures 1 <= TypeOf(size) <= 6 && size <= GetSize(TypeOf(size))
    ensures size > 4 ==> GetSize(TypeOf(size) - 1) < size
    ensures TypeOf(GetSize(t)) == t
  {
    Sizes();
    assert GetSize(0) == 4;
    assert t == 1 || t == 2 || t == 3 || t == 4 || t == 5 || t == 6;
  }

  // ------------------------------------------------------------------
  // Geometry.

  function Quotient(a: nat, b: nat): nat
    requires b > 0
  {
    a / b
  }

  function FirstElement(elm: nat, bytes: nat): nat
    requires elm > 0
  {
    ((Quotient(bytes, elm) + 7) / 8 + 7) / 8 * 8
  }

  function MaxElements(elm: nat, bytes: nat): nat
    requires elm > 0 && FirstElement(elm, bytes) <= bytes
  {
    Quotient(bytes - FirstElement(elm, bytes), elm)
  }

  /** Chunks of slots: the boot chunk, or 1 KiB of one class. */
  predicate SmallShape(elm: nat, bytes: nat) {
    || (elm == DESC_SIZE && bytes == BOOT_BYTES)
    || (bytes == CHUNK_BYTES && (elm == 8 || elm == 16 || elm == 32 || elm == 64 || elm == 128 || elm == 256))
  }

  predicate LargeShape(elm: nat, bytes: nat) {
    elm == bytes && bytes >= 512
  }

  predicate Small(c: Chunk) {
    SmallShape(c.elmSize, c.bytes)
  }

  /** The slots fit behind the bitmap, and the bitmap has a bit for each. */
  lemma SlotsFit(elm: nat, bytes: nat)
    requires SmallShape(elm, bytes)
    ensures elm > 0 && 0 < FirstElement(elm, bytes) <= bytes
    ensures 3 <= MaxElements(elm, bytes) <= 8 * FirstElement(elm, bytes)
    ensures FirstElement(elm, bytes) + MaxElements(elm, bytes) * elm <= bytes
    ensures 1 <= TypeOf(elm) <= 6 && GetSize(TypeOf(elm)) == elm
  {
    Sizes();
    if bytes == BOOT_BYTES {
    } else if elm == 8 {
    } else if elm == 16 {
    } else if elm == 32 {
    } else if elm == 64 {
    } else if elm == 128 {
    } else {
    }
  }

  function First(c: Chunk): nat
    requires Small(c)
  {
    SlotsFit(c.elmSize, c.bytes);
    FirstElement(c.elmSize, c.bytes)
  }

  function Max(c: Chunk): nat
    requires Small(c)
  {
    SlotsFit(c.elmSize, c.bytes);
    MaxElements(c.elmSize, c.bytes)
  }

  function SlotAddr(c: Chunk, k: nat): Addr
    requires Small(c)
  {
    c.begin + First(c) + k * c.elmSize
  }

  /** Slots lie inside the chunk, behind the bitmap, and apart. */
  lemma SlotRange(c: Chunk, k: nat)
    requires Small(c) && k < Max(c)
    ensures c.begin + First(c) <= SlotAddr(c, k) && SlotAddr(c, k) + c.elmSize <= c.begin + c.bytes
    ensures First(c) > 0 && c.elmSize >= 8
  {
    SlotsFit(c.elmSize, c.bytes);
    TimesLess(k, Max(c), c.elmSize);
    hide FirstElement, MaxElements;
  }

  lemma {:induction false} TimesLess(k: nat, m: nat, e: nat)
    requires k < m
    ensures k * e + e <= m * e
  {
    TimesNext(m - 1, e);
    if k < m - 1 {
      TimesLess(k, m - 1, e);
    }
  }

  lemma TimesNext(k: nat, e: nat)
    ensures (k + 1) * e == k * e + e
  {
  }

  lemma SlotsApart(c: Chunk, j: nat, k: nat)
    requires Small(c) && j < k
    ensures SlotAddr(c, j) + c.elmSize <= SlotAddr(c, k)
  {
    TimesLess(j, k, c.elmSize);
  }

  /** The slot an address belongs to. */
  function Position(c: Chunk, p: Addr): nat
    requires Small(c) && c.begin + First(c) <= p
  {
    SlotsFit(c.elmSize, c.bytes);
    Quotient(p - c.begin - First(c), c.elmSize)
  }

  lemma PositionOfSlot(c: Chunk, k: nat)
    requires Small(c)
    ensures c.begin + First(c) <= SlotAddr(c, k) && Position(c, SlotAddr(c, k)) == k
  {
    SlotsFit(c.elmSize, c.bytes);
    DivBack(k, c.elmSize);
  }

  lemma DivBack(k: nat, e: nat)
    requires e == 8 || e == 16 || e == 32 || e == 64 || e == 128 || e == 256
    ensures (k * e) / e == k
  {
    if e == 8 {
    } else if e == 16 {
    } else if e == 32 {
    } else if e == 64 {
    } else if e == 128 {
    } else {
    }
  }

  predicate IsPart(c: Chunk, p: Addr)
    requires Small(c)
  {
    c.begin + First(c) <= p < c.begin + c.bytes
  }

  // ------------------------------------------------------------------
  // The bitmap.

  predicate Bit(b: bv8, j: nat)
    requires j < 8
  {
    (b >> j) & 1 == 1
  }

  function SetBit(b: bv8, j: nat): bv8
    requires j < 8
  {
    b | (1 << j)
  }

  function ClearBit(b: bv8, j: nat): bv8
    requires j < 8
  {
    b & !(1 << j)
  }

  lemma BitSet(b: bv8, j: nat, k: nat)
    requires j < 8 && k < 8
    ensures Bit(SetBit(b, j), k) <==> k == j || Bit(b, k)
  {
    EightWays(j);
    EightWays(k);
  }

  lemma BitCleared(b: bv8, j: nat, k: nat)
    requires j < 8 && k < 8
    ensures Bit(ClearBit(b, j), k) <==> k != j && Bit(b, k)
  {
    EightWays(j);
    EightWays(k);
  }

  lemma EightWays(j: nat)
    requires j < 8
    ensures j == 0 || j == 1 || j == 2 || j == 3 || j == 4 || j == 5 || j == 6 || j == 7
  {
  }

  lemma FullByte(b: bv8, k: nat)
    requires b == 0xff && k < 8
    ensures Bit(b, k)
  {
    EightWays(k);
  }

  lemma ZeroByte(k: nat)
    requires k < 8
    ensures !Bit(0, k)
  {
    EightWays(k);
  }

  predicate Used(usebits: seq<bv8>, k: nat)
    requires k < 8 * |usebits|
  {
    Bit(usebits[k / 8], k % 8)
  }

  function Taken(usebits: seq<bv8>, k: nat): seq<bv8>
    requires k < 8 * |usebits|
  {
    usebits[k / 8 := SetBit(usebits[k / 8], k % 8)]
  }

  function Given(usebits: seq<bv8>, k: nat): seq<bv8>
    requires k < 8 * |usebits|
  {
    usebits[k / 8 := ClearBit(usebits[k / 8], k % 8)]
  }

  lemma UseChange(usebits: seq<bv8>, k: nat, i: nat)
    requires k < 8 * |usebits| && i < 8 * |usebits|
    ensures Used(Taken(usebits, k), i) <==> i == k || Used(usebits, i)
    ensures Used(Given(usebits, k), i) <==> i != k && Used(usebits, i)
  {
    hide Bit, SetBit, ClearBit;
    if i / 8 == k / 8 {
      BitSet(usebits[k / 8], k % 8, i % 8);
      BitCleared(usebits[k / 8], k % 8, i % 8);
    }
  }

  /** The clear bits among the first n. */
  function CountClear(usebits: seq<bv8>, n: nat): (r: nat)
    requires n <= 8 * |usebits|
    ensures r <= n
  {
    if n == 0 then 0 else CountClear(usebits, n - 1) + (if Used(usebits, n - 1) then 0 else 1)
  }

  lemma {:induction false} AllUsed(usebits: seq<bv8>, n: nat)
    requires n <= 8 * |usebits| && forall k :: 0 <= k < n ==> Used(usebits, k)
    ensures CountClear(usebits, n) == 0
  {
    hide Used;
    if n > 0 {
      AllUsed(usebits, n - 1);
    }
  }

  lemma {:induction false} CountChange(usebits: seq<bv8>, k: nat, n: nat)
    requires k < 8 * |usebits| && n <= 8 * |usebits|
    ensures !Used(usebits, k) ==> CountClear(Taken(usebits, k), n) == CountClear(usebits, n) - (if k < n then 1 else 0)
    ensures Used(usebits, k) ==> CountClear(Given(usebits, k), n) == CountClear(usebits, n) + (if k < n then 1 else 0)
  {
    hide Used, Taken, Given;
    assert |Taken(usebits, k)| == |Given(usebits, k)| == |usebits| by { SameLength(usebits, k); }
    if n > 0 {
      CountChange(usebits, k, n - 1);
      UseChange(usebits, k, n - 1);
    }
  }

  lemma SameLength(usebits: seq<bv8>, k: nat)
    requires k < 8 * |usebits|
    ensures |Taken(usebits, k)| == |Given(usebits, k)| == |usebits|
  {
  }

  lemma {:induction false} ZerosClear(size: nat, n: nat)
    requires n <= 8 * size
    ensures CountClear(Wire.Zeros(size), n) == n
    ensures forall k :: 0 <= k < n ==> !Used(Wire.Zeros(size), k)
  {
    hide Bit;
    if n > 0 {
      ZerosClear(size, n - 1);
      ZeroByte((n - 1) % 8);
    }
  }

  /** The counter of a chunk of slots tells the truth, and its bitmap takes the
      room before the first slot. */
  ghost predicate ValidSmall(c: Chunk) {
    Small(c) && |c.usebits| == First(c) && Max(c) <= 8 * |c.usebits| && c.nfree == CountClear(c.usebits, Max(c))
  }

  ghost predicate ValidLarge(c: Chunk) {
    LargeShape(c.elmSize, c.bytes) && c.nfree == 0
  }

  // ------------------------------------------------------------------
  // The methods of chunkinfo_t.

  /** Its constructor. */
  method NewChunk(elm: nat, begin: Addr, bytes: nat) returns (c: Chunk)
    requires SmallShape(elm, bytes) || LargeShape(elm, bytes)
    ensures c.begin == begin && c.next == NULL && c.elmSize == elm && c.bytes == bytes
    ensures SmallShape(elm, bytes) ==> ValidSmall(c) && c.nfree == Max(c) && forall k :: 0 <= k < Max(c) ==> !Used(c.usebits, k)
    ensures LargeShape(elm, bytes) ==> ValidLarge(c)
  {
    hide Used;
    if SmallShape(elm, bytes) { SlotsFit(elm, bytes); } else { LargeHoldsNone(bytes); }
    var first := FirstElement(elm, bytes);
    var max := MaxElements(elm, bytes);
    c := Chunk(begin, NULL, elm, bytes, max, Wire.Zeros(first));
    if SmallShape(elm, bytes) { ZerosClear(first, max); }
  }

  lemma LargeHoldsNone(bytes: nat)
    requires bytes >= 512
    ensures FirstElement(bytes, bytes) == 8 && MaxElements(bytes, bytes) == 0
  {
    assert bytes / bytes == 1;
    assert (bytes - 8) / bytes == 0 by { QuotientZero(bytes - 8, bytes); }
  }

  lemma QuotientZero(a: nat, b: nat)
    requires a < b
    ensures a / b == 0
  {
  }

  /** The first clear bit from start to stop, if there is one, gets set. */
  method AllocFreeRange(c: Chunk, start: nat, stop: nat) returns (found: int, c': Chunk)
    requires start % 8 == 0 && stop <= 8 * |c.usebits| && start <= stop
    requires c.nfree > 0
    ensures found == -1 ==> c' == c && forall k :: start <= k < stop ==> Used(c.usebits, k)
    ensures found != -1 ==> start <= found < stop && !Used(c.usebits, found)
    ensures found != -1 ==> c' == c.(usebits := Taken(c.usebits, found), nfree := c.nfree - 1)
    ensures found != -1 ==> forall k :: start <= k < found ==> Used(c.usebits, k)
  {
    hide Bit;
    c' := c;
    var i := start;
    while i < stop
      invariant i % 8 == 0 && c' == c
      invariant forall k :: start <= k < i && k < stop ==> Used(c.usebits, k)
    {
      var b := c.usebits[i / 8];
      if b == 0xff {
        forall k | i <= k < i + 8 && k < stop ensures Used(c.usebits, k) {
          SameByte(i, k);
          FullByte(b, k - i);
        }
        i := i + 8;
        continue;
      }
      for j := 0 to 8
        invariant forall k :: i <= k < i + j && k < stop ==> Used(c.usebits, k)
      {
        SameByte(i, i + j);
        if Bit(b, j) {
          continue;
        }
        found := i + j;
        if found < stop {
          c' := c.(usebits := c.usebits[i / 8 := SetBit(b, j)], nfree := c.nfree - 1);
          return;
        }
      }
      i := i + 8;
    }
    found := -1;
  }

  lemma SameByte(i: nat, k: nat)
    requires i % 8 == 0 && i <= k < i + 8
    ensures k / 8 == i / 8 && k % 8 == k - i
  {
  }

  /** Where the search begins: r eighths of the way, at a whole byte. */
  function StartOf(r: nat, max: nat): (start: nat)
    requires r < 8
    ensures start % 8 == 0 && start <= max
  {
    assert r * max <= 8 * max;
    r * max / 8 - r * max / 8 % 8
  }

  /** A chunk of at most 8 slots is always searched from its first. */
  lemma StartOfFew(r: nat, max: nat)
    requires r < 8 && max <= 8
    ensures StartOf(r, max) == 0
  {
    assert r * max <= 7 * max;
  }

  /** A chunk that counts a free slot yields one, wherever the rotating start
      makes the search begin. */
  method AllocFree(c: Chunk, rand: nat) returns (found: int, c': Chunk, rand': nat)
    requires ValidSmall(c)
    ensures c.nfree == 0 ==> found == -1 && c' == c && rand' == rand
    ensures c.nfree > 0 ==> 0 <= found < Max(c) && !Used(c.usebits, found)
    ensures c.nfree > 0 ==> c' == c.(usebits := Taken(c.usebits, found), nfree := c.nfree - 1) && ValidSmall(c')
    ensures c.nfree > 0 ==> rand' == (rand + 1) % 0x1_0000_0000
    ensures var start := StartOf(rand % 8, Max(c));
      c.nfree > 0 && start < Max(c) && !Used(c.usebits, start) ==> found == start
  {
    hide Used, Taken, Bit, StartOf, MaxElements, FirstElement, CountClear, SlotAddr;
    c', rand' := c, rand;
    if c.nfree == 0 {
      return -1, c, rand;
    }
    var max := Max(c);
    var start := StartOf(rand % 8, max);
    rand' := (rand + 1) % 0x1_0000_0000;
    found, c' := AllocFreeRange(c, start, max);
    if found == -1 && start != 0 {
      found, c' := AllocFreeRange(c, 0, start);
    }
    if found == -1 {
      AllUsed(c.usebits, max);
      assert false;
    }
    CountChange(c.usebits, found, max);
    SameLength(c.usebits, found);
  }

  /** chunkinfo_t::alloc: a slot's address, or NULL. */
  method Alloc(c: Chunk, rand: nat) returns (p: Addr, c': Chunk, rand': nat, ghost k: nat)
    requires ValidSmall(c)
    ensures c.nfree == 0 ==> p == NULL && c' == c && rand' == rand
    ensures c.nfree > 0 ==> k < Max(c) && !Used(c.usebits, k) && p == SlotAddr(c, k)
    ensures var start := StartOf(rand % 8, Max(c));
      c.nfree > 0 && start < Max(c) && !Used(c.usebits, start) ==> k == start
    ensures c.nfree > 0 ==> c' == c.(usebits := Taken(c.usebits, k), nfree := c.nfree - 1) && ValidSmall(c')
  {
    hide Used, Taken, StartOf, MaxElements, FirstElement, CountClear;
    var found;
    found, c', rand' := AllocFree(c, rand);
    if found < 0 {
      p, k := NULL, 0;
    } else {
      p, k := c.begin + First(c) + found * c.elmSize, found;
    }
  }

  /** chunkinfo_t::free on an address in one of the slots. */
  method Free(c: Chunk, p: Addr) returns (c': Chunk)
    requires ValidSmall(c) && IsPart(c, p) && Position(c, p) < Max(c) && Used(c.usebits, Position(c, p))
    ensures c' == c.(usebits := Given(c.usebits, Position(c, p)), nfree := c.nfree + 1) && ValidSmall(c')
  {
    hide Used, Given;
    var pos := Position(c, p);
    c' := c.(usebits := Given(c.usebits, pos), nfree := c.nfree + 1);
    CountChange(c.usebits, pos, Max(c));
    SameLength(c.usebits, pos);
  }
}
