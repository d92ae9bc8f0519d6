/** The stored form of a directory: a header, a table of entries, a table of
    hashes and the names, all in the order of the names. */
module OglCodec {
  import opened Wire
  import opened OglTree

  const MAGIC: nat := 0x091f
  const TYPE_DIR: nat := 1
  const HEAD: nat := 12

  const ENT_NONEXISTENT: nat := 0
  const ENT_FILE: nat := 1
  const ENT_DIR: nat := 2
  const ENT_SYMLINK: nat := 3
  const ENT_LOCAL: nat := 4

  /** Permission bits and whether the owner and the group are one's own. */
  datatype Perms = Perms(mode: nat, own: bool, ownGroup: bool)

  /** What a directory writes about one name. */
  datatype Item = Item(kind: nat, hash: nat, perms: Perms)

  /** What reading gives back: the permissions stay in the object. */
  datatype Ref = Ref(kind: nat, hash: nat)

  predicate Hashed(kind: nat) {
    kind == ENT_FILE || kind == ENT_DIR || kind == ENT_SYMLINK
  }

  predicate ValidItem(it: Item) {
    && it.kind <= ENT_LOCAL && it.perms.mode < 512 && it.hash < Pow256(8)
    && (!Hashed(it.kind) ==> it.hash == 0)
  }

  predicate ValidItems(items: map<Name, Item>) {
    forall n :: n in items ==> ValidItem(items[n])
  }

  /** The kind sits above the ownership bits, those above the permissions. */
  function ModeField(it: Item): (m: nat)
    requires ValidItem(it)
    ensures m < TWO16 && m / 4096 % 16 == it.kind && m % 512 == it.perms.mode
  {
    it.perms.mode + (if it.perms.own then 512 else 0) + (if it.perms.ownGroup then 1024 else 0) + 4096 * it.kind
  }

  // ------------------------------------------------------------------
  // The order of names.

  /** std::string's order: by bytes, a prefix first. */
  predicate Before(a: bytes, b: bytes) {
    b != [] && (a == [] || a[0] < b[0] || (a[0] == b[0] && Before(a[1..], b[1..])))
  }

  lemma {:induction false} BeforeOrder(a: bytes, b: bytes, c: bytes)
    ensures !Before(a, a)
    ensures a != b ==> Before(a, b) || Before(b, a)
    ensures Before(a, b) && Before(b, c) ==> Before(a, c)
  {
    if a != [] {
      BeforeOrder(a[1..], if b == [] then [] else b[1..], if c == [] then [] else c[1..]);
      if b != [] && a[0] == b[0] && a[1..] == b[1..] {
        assert a == [a[0]] + a[1..] == b;
      }
    }
  }

  ghost predicate Ascending(names: seq<Name>) {
    forall i, j :: 0 <= i < j < |names| ==> Before(names[i], names[j])
  }

  ghost function Elements(names: seq<Name>): set<Name> {
    set n | n in names
  }

  /** There is one way to put a set of names in order. */
  lemma {:induction false} OneOrder(a: seq<Name>, b: seq<Name>)
    requires Ascending(a) && Ascending(b) && Elements(a) == Elements(b)
    ensures a == b
  {
    assert a != [] ==> a[0] in Elements(a);
    assert b != [] ==> b[0] in Elements(b);
    if a != [] && b != [] {
      assert a[0] in Elements(b) && b[0] in Elements(a);
      var i :| 0 <= i < |b| && b[i] == a[0];
      var j :| 0 <= j < |a| && a[j] == b[0];
      if i > 0 && j > 0 {
        BeforeOrder(a[0], b[0], a[0]);
      }
      assert a[0] == b[0];
      forall n ensures n in Elements(a[1..]) <==> n in Elements(b[1..]) {
        TailElements(a, n);
        TailElements(b, n);
      }
      OneOrder(a[1..], b[1..]);
    }
  }

  lemma TailElements(a: seq<Name>, n: Name)
    requires Ascending(a) && a != []
    ensures n in Elements(a[1..]) <==> n in Elements(a) && n != a[0]
  {
    BeforeOrder(a[0], a[0], a[0]);
    if n in Elements(a) && n != a[0] {
      var k :| 0 <= k < |a| && a[k] == n;
      assert a[1..][k - 1] == n;
    }
  }

  function Insert(n: Name, names: seq<Name>): seq<Name> {
    if names == [] || Before(n, names[0]) then [n] + names else [names[0]] + Insert(n, names[1..])
  }

  /** The sorting of the collected names. */
  function Sort(names: seq<Name>): seq<Name> {
    if names == [] then [] else Insert(names[0], Sort(names[1..]))
  }

  lemma {:induction false} InsertElements(n: Name, names: seq<Name>)
    ensures Elements(Insert(n, names)) == Elements(names) + {n}
  {
    if names != [] && !Before(n, names[0]) {
      InsertElements(n, names[1..]);
      assert Elements(names) == {names[0]} + Elements(names[1..]);
      assert Elements([names[0]] + Insert(n, names[1..])) == {names[0]} + Elements(Insert(n, names[1..]));
    } else {
      assert Elements([n] + names) == {n} + Elements(names);
    }
  }

  lemma {:induction false} InsertAscends(n: Name, names: seq<Name>)
    requires Ascending(names) && n !in names
    ensures Ascending(Insert(n, names))
  {
    if names == [] {
    } else if Before(n, names[0]) {
      forall j | 0 <= j < |names| ensures Before(n, names[j]) {
        BeforeOrder(n, names[0], names[j]);
      }
    } else {
      var rest := Insert(n, names[1..]);
      InsertAscends(n, names[1..]);
      InsertElements(n, names[1..]);
      BeforeOrder(n, names[0], n);
      forall j | 0 <= j < |rest| ensures Before(names[0], rest[j]) {
        assert rest[j] in Elements(rest);
        assert rest[j] == n || rest[j] in names[1..];
      }
    }
  }

  lemma {:induction false} SortSorts(names: seq<Name>)
    requires Distinct(names)
    ensures Ascending(Sort(names)) && Elements(Sort(names)) == Elements(names)
  {
    if names != [] {
      SortSorts(names[1..]);
      assert names[0] !in Elements(names[1..]);
      InsertAscends(names[0], Sort(names[1..]));
      InsertElements(names[0], Sort(names[1..]));
      assert Elements(names) == {names[0]} + Elements(names[1..]);
    }
  }

  lemma {:induction false} SetHasListing(s: set<Name>) returns (names: seq<Name>)
    ensures Distinct(names) && Elements(names) == s
  {
    if s == {} {
      names := [];
    } else {
      var n :| n in s;
      var rest := SetHasListing(s - {n});
      names := [n] + rest;
      assert n !in Elements(rest);
      assert Elements(names) == {n} + Elements(rest);
    }
  }

  /** The ascending listing of a set. */
  ghost function Ordered(s: set<Name>): (names: seq<Name>)
    ensures Ascending(names) && Elements(names) == s
  {
    assert exists names :: Ascending(names) && Elements(names) == s by {
      var l := SetHasListing(s);
      SortSorts(l);
    }
    var names :| Ascending(names) && Elements(names) == s;
    names
  }

  // ------------------------------------------------------------------
  // Layout.

  function Flat(parts: seq<bytes>): bytes {
    if parts == [] then [] else Flat(parts[..|parts| - 1]) + parts[|parts| - 1]
  }

  lemma {:induction false} FlatSlice(parts: seq<bytes>, i: nat)
    requires i < |parts|
    ensures var o := |Flat(parts[..i])|;
      o + |parts[i]| <= |Flat(parts)| && Flat(parts)[o..o + |parts[i]|] == parts[i]
  {
    var init := parts[..|parts| - 1];
    if i < |init| {
      FlatSlice(init, i);
      assert init[..i] == parts[..i];
    }
  }

  lemma {:induction false} FlatUniform(parts: seq<bytes>, w: nat, i: nat)
    requires i <= |parts| && forall k :: 0 <= k < |parts| ==> |parts[k]| == w
    ensures |Flat(parts[..i])| == w * i
  {
    if i > 0 {
      FlatUniform(parts, w, i - 1);
      assert parts[..i][..i - 1] == parts[..i - 1];
      assert w * i == w * (i - 1) + w;
    }
  }

  function Strings(names: seq<Name>): (r: seq<bytes>)
    ensures |r| == |names|
  {
    seq(|names|, i requires 0 <= i < |names| => names[i] + [0])
  }

  function Hashes(names: seq<Name>, items: map<Name, Item>): (r: seq<bytes>)
    requires Elements(names) <= items.Keys
    ensures |r| == |names|
  {
    seq(|names|, i requires 0 <= i < |names| => assert names[i] in Elements(names); Put(8, items[names[i]].hash))
  }

  function NameOffset(names: seq<Name>, i: nat): nat
    requires i <= |names|
  {
    HEAD + 12 * |names| + |Flat(Strings(names)[..i])|
  }

  function Dentry(names: seq<Name>, items: map<Name, Item>, i: nat): (d: bytes)
    requires Elements(names) <= items.Keys && ValidItems(items) && i < |names|
    ensures |d| == 4
  {
    assert names[i] in Elements(names);
    Put(2, ModeField(items[names[i]])) + Put(2, NameOffset(names, i))
  }

  function Dentries(names: seq<Name>, items: map<Name, Item>): (r: seq<bytes>)
    requires Elements(names) <= items.Keys && ValidItems(items)
    ensures |r| == |names|
  {
    seq(|names|, i requires 0 <= i < |names| => Dentry(names, items, i))
  }

  function Header(n: nat, size: nat): (h: bytes)
    ensures |h| == HEAD
  {
    Put(2, MAGIC) + Put(2, TYPE_DIR) + Put(2, size) + Put(2, n) + Put(2, HEAD + 4 * n) + Put(2, HEAD + 12 * n)
  }

  function Layout(names: seq<Name>, items: map<Name, Item>): bytes
    requires Elements(names) <= items.Keys && ValidItems(items)
  {
    Header(|names|, NameOffset(names, |names|))
    + Flat(Dentries(names, items)) + Flat(Hashes(names, items)) + Flat(Strings(names))
  }

  /** The bytes a directory is stored as. */
  ghost function EncodeDir(items: map<Name, Item>): bytes
    requires ValidItems(items)
  {
    Layout(Ordered(items.Keys), items)
  }

  // ------------------------------------------------------------------
  // Reading.

  datatype Loaded = Loaded(refs: map<Name, Ref>) | Unreadable

  datatype Text = Text(s: bytes) | NoEnd

  /** The C string at an offset, if it ends inside the object. */
  function CString(s: bytes, at: nat): Text
    decreases |s| - at
  {
    if at >= |s| then NoEnd
    else if s[at] == 0 then Text([])
    else
      var rest := CString(s, at + 1);
      if rest.NoEnd? then NoEnd else Text([s[at]] + rest.s)
  }

  function Short(s: bytes, at: nat): nat
    requires at + 2 <= |s|
  {
    Get(s[at..at + 2])
  }

  function Long(s: bytes, at: nat): nat
    requires at + 8 <= |s|
  {
    Get(s[at..at + 8])
  }

  /** Entry i of the table, its name and its hash; a byte outside the object,
      an unknown kind or a name no path can spell make the object unreadable. */
  datatype Row = Row(name: Name, ref: Ref) | NoRow

  function ReadRow(s: bytes, hashOffset: nat, i: nat): Row {
    if HEAD + 4 * i + 4 > |s| || hashOffset + 8 * i + 8 > |s| then NoRow
    else
      var kind := Short(s, HEAD + 4 * i) / 4096 % 16;
      var name := CString(s, Short(s, HEAD + 4 * i + 2));
      if kind > ENT_LOCAL || name.NoEnd? || name.s == [] || SLASH in name.s || 0 in name.s then NoRow
      else Row(name.s, Ref(kind, if Hashed(kind) then Long(s, hashOffset + 8 * i) else 0))
  }

  /** The first i rows; a repeated name keeps its last row. */
  function ReadRows(s: bytes, hashOffset: nat, i: nat): Loaded {
    if i == 0 then Loaded(map[])
    else
      var before, row := ReadRows(s, hashOffset, i - 1), ReadRow(s, hashOffset, i - 1);
      if before.Unreadable? || row.NoRow? then Unreadable else Loaded(before.refs[row.name := row.ref])
  }

  /** load_obj and ogl_dir::load on the contents of an object file. */
  function DecodeDir(s: bytes): Loaded {
    if |s| < HEAD || Short(s, 0) != MAGIC || Short(s, 2) != TYPE_DIR || Short(s, 4) != |s| then Unreadable
    else ReadRows(s, Short(s, 8), Short(s, 6))
  }

  /** What store_obj writes: as many bytes as the 16-bit size field says. */
  function StoredPart(obj: bytes): bytes {
    if |obj| >= HEAD && Short(obj, 4) < |obj| then obj[..Short(obj, 4)] else obj
  }

  lemma ShortAt(a: bytes, n: nat, b: bytes)
    requires n < TWO16
    ensures Short(a + Put(2, n) + b, |a|) == n
  {
    hide Put, Get;
    GetPut16(n);
    assert (a + Put(2, n) + b)[|a|..|a| + 2] == Put(2, n);
  }

  lemma ReadHeader(n: nat, size: nat, rest: bytes)
    requires size < TWO16 && HEAD + 12 * n <= size
    ensures var s := Header(n, size) + rest;
      && Short(s, 0) == MAGIC && Short(s, 2) == TYPE_DIR && Short(s, 4) == size
      && Short(s, 6) == n && Short(s, 8) == HEAD + 4 * n
  {
    hide Put, Get, Short;
    var s := Header(n, size) + rest;
    var a, b, c := Put(2, MAGIC), Put(2, TYPE_DIR), Put(2, size);
    var d, e, f := Put(2, n), Put(2, HEAD + 4 * n), Put(2, HEAD + 12 * n);
    ShortAt([], MAGIC, b + c + d + e + f + rest);
    assert s == [] + a + (b + c + d + e + f + rest);
    ShortAt(a, TYPE_DIR, c + d + e + f + rest);
    assert s == a + b + (c + d + e + f + rest);
    ShortAt(a + b, size, d + e + f + rest);
    assert s == (a + b) + c + (d + e + f + rest);
    ShortAt(a + b + c, n, e + f + rest);
    assert s == (a + b + c) + d + (e + f + rest);
    ShortAt(a + b + c + d, HEAD + 4 * n, f + rest);
    assert s == (a + b + c + d) + e + (f + rest);
  }

  lemma {:induction false} CStringOf(s: bytes, at: nat, name: bytes)
    requires at + |name| + 1 <= |s| && s[at..at + |name| + 1] == name + [0] && 0 !in name
    ensures CString(s, at) == Text(name)
    decreases |name|
  {
    var w := s[at..at + |name| + 1];
    assert w[0] == s[at];
    if name != [] {
      assert s[at + 1..at + 1 + |name[1..]| + 1] == w[1..] == name[1..] + [0];
      CStringOf(s, at + 1, name[1..]);
      assert name == [s[at]] + name[1..];
    }
  }

  /** The three regions lie end to end and fill the object. */
  lemma Regions(names: seq<Name>, items: map<Name, Item>)
    requires Elements(names) <= items.Keys && ValidItems(items)
    ensures var s, n := Layout(names, items), |names|;
      && |s| == NameOffset(names, n) && HEAD + 12 * n <= |s|
      && s[..HEAD] == Header(n, |s|)
      && s[HEAD..HEAD + 4 * n] == Flat(Dentries(names, items))
      && s[HEAD + 4 * n..HEAD + 12 * n] == Flat(Hashes(names, items))
      && s[HEAD + 12 * n..] == Flat(Strings(names))
  {
    hide Put, Dentry, Flat;
    var d, h, t, n := Dentries(names, items), Hashes(names, items), Strings(names), |names|;
    FlatUniform(d, 4, n);
    FlatUniform(h, 8, n);
    assert d[..n] == d && h[..n] == h && t[..n] == t;
  }

  /** A part of a region, seen from the whole object. */
  lemma PartAt(s: bytes, from: nat, to: nat, parts: seq<bytes>, i: nat)
    requires from <= to <= |s| && s[from..to] == Flat(parts) && i < |parts|
    ensures var o := from + |Flat(parts[..i])|; o + |parts[i]| <= to && s[o..o + |parts[i]|] == parts[i]
  {
    FlatSlice(parts, i);
    var o := |Flat(parts[..i])|;
    SliceOfSlice(s, from, to - from, o, o + |parts[i]|);
    assert from + (to - from) == to;
  }

  lemma {:induction false} OffsetsFit(names: seq<Name>, i: nat)
    requires i <= |names|
    ensures NameOffset(names, i) <= NameOffset(names, |names|)
  {
    var t := Strings(names);
    assert t[..|names|] == t;
    if i < |names| {
      FlatSlice(t, i);
    }
  }

  lemma RowRead(names: seq<Name>, items: map<Name, Item>, i: nat)
    requires Elements(names) <= items.Keys && ValidItems(items) && i < |names|
    requires NameOffset(names, |names|) < TWO16
    ensures names[i] in items
    ensures ReadRow(Layout(names, items), HEAD + 4 * |names|, i)
         == Row(names[i], Ref(items[names[i]].kind, items[names[i]].hash))
  {
    hide Put, Get, Flat, Dentry, Layout, CString, Pow256;
    var s, n, name := Layout(names, items), |names|, names[i];
    assert name in Elements(names);
    var it, d, h := items[name], Dentries(names, items), Hashes(names, items);
    Regions(names, items);
    OffsetsFit(names, i);
    FlatUniform(d, 4, i);
    PartAt(s, HEAD, HEAD + 4 * n, d, i);
    DentryRead(s, HEAD + 4 * i, names, items, i);
    FlatUniform(h, 8, i);
    PartAt(s, HEAD + 4 * n, HEAD + 12 * n, h, i);
    GetPut(8, it.hash);
    assert s[HEAD + 12 * n..|s|] == s[HEAD + 12 * n..];
    PartAt(s, HEAD + 12 * n, |s|, Strings(names), i);
    CStringOf(s, NameOffset(names, i), name);
  }

  lemma DentryRead(s: bytes, at: nat, names: seq<Name>, items: map<Name, Item>, i: nat)
    requires Elements(names) <= items.Keys && ValidItems(items) && i < |names| && names[i] in items
    requires NameOffset(names, i) < TWO16
    requires at + 4 <= |s| && s[at..at + 4] == Dentry(names, items, i)
    ensures Short(s, at) / 4096 % 16 == items[names[i]].kind
    ensures Short(s, at + 2) == NameOffset(names, i)
  {
    hide Put, Get, NameOffset;
    var m, o := ModeField(items[names[i]]), NameOffset(names, i);
    GetPut16(m);
    GetPut16(o);
    SliceOfSlice(s, at, 4, 0, 2);
    SliceOfSlice(s, at, 4, 2, 4);
    assert (Put(2, m) + Put(2, o))[0..2] == Put(2, m);
    assert (Put(2, m) + Put(2, o))[2..4] == Put(2, o);
  }

  ghost function Refs(items: map<Name, Item>): map<Name, Ref> {
    map n | n in items :: Ref(items[n].kind, items[n].hash)
  }

  lemma {:induction false} RowsRead(names: seq<Name>, items: map<Name, Item>, i: nat)
    requires Elements(names) <= items.Keys && ValidItems(items) && i <= |names|
    requires NameOffset(names, |names|) < TWO16
    ensures ReadRows(Layout(names, items), HEAD + 4 * |names|, i)
         == Loaded(map n | n in Elements(names[..i]) :: Ref(items[n].kind, items[n].hash))
  {
    hide Layout, ReadRow, NameOffset, ValidItems;
    if i > 0 {
      RowsRead(names, items, i - 1);
      RowRead(names, items, i - 1);
      assert names[..i] == names[..i - 1] + [names[i - 1]];
      assert Elements(names[..i]) == Elements(names[..i - 1]) + {names[i - 1]};
    }
  }

  /** Reading back what was dumped gives every name its kind and hash and
      nothing else, as long as the object is under 64 KiB. */
  lemma LoadDump(items: map<Name, Item>)
    requires ValidItems(items) && |EncodeDir(items)| < TWO16
    ensures DecodeDir(EncodeDir(items)) == Loaded(Refs(items))
    ensures StoredPart(EncodeDir(items)) == EncodeDir(items)
  {
    hide Put, Get, Short, ReadRows, Flat, Dentries, Hashes, Header, NameOffset, Layout;
    var names := Ordered(items.Keys);
    var s, n := EncodeDir(items), |names|;
    Regions(names, items);
    assert s == Header(n, |s|) + s[HEAD..];
    ReadHeader(n, |s|, s[HEAD..]);
    RowsRead(names, items, n);
    assert names[..n] == names;
  }

  /** In whatever order the names are collected, sorting gives the same bytes. */
  lemma OrderIrrelevant(collected: seq<Name>, items: map<Name, Item>)
    requires ValidItems(items) && Distinct(collected) && Elements(collected) == items.Keys
    ensures Elements(Sort(collected)) == items.Keys && Layout(Sort(collected), items) == EncodeDir(items)
  {
    SortSorts(collected);
    OneOrder(Sort(collected), Ordered(items.Keys));
  }

  /** Different directories never share an encoding: what is not recovered on
      reading does not blur what is. */
  lemma EncodingTells(a: map<Name, Item>, b: map<Name, Item>)
    requires ValidItems(a) && ValidItems(b)
    requires EncodeDir(a) == EncodeDir(b) && |EncodeDir(a)| < TWO16
    ensures Refs(a) == Refs(b)
  {
    LoadDump(a);
    LoadDump(b);
  }

  // ------------------------------------------------------------------
  // Writing in place.

  /** `after` is `before` with src copied in at a position. */
  ghost predicate Wrote(before: bytes, after: bytes, at: nat, src: bytes) {
    && |before| == |after| && at + |src| <= |after|
    && after[..at] == before[..at]
    && after[at..at + |src|] == src
    && after[at + |src|..] == before[at + |src|..]
  }

  /** memcpy into the object. */
  method WriteAt(obj: array<byte>, at: nat, src: bytes)
    requires at + |src| <= obj.Length
    modifies obj
    ensures Wrote(old(obj[..]), obj[..], at, src)
  {
    forall k | 0 <= k < |src| {
      obj[at + k] := src[k];
    }
  }

  lemma FlatNext(parts: seq<bytes>, i: nat)
    requires i < |parts|
    ensures Flat(parts[..i + 1]) == Flat(parts[..i]) + parts[i]
  {
    assert parts[..i + 1][..i] == parts[..i];
  }

  /** A slice [from..to) of the object stays as it is when another part is
      written, and grows by what is written at its end. */
  lemma SliceKept(before: bytes, after: bytes, at: nat, src: bytes, from: nat, to: nat)
    requires Wrote(before, after, at, src) && from <= to <= |after|
    ensures to <= at || at + |src| <= from ==> after[from..to] == before[from..to]
    ensures to == at ==> after[from..at + |src|] == before[from..to] + src
  {
    forall k | 0 <= k < |after|
      ensures after[k] == if k < at || k >= at + |src| then before[k] else src[k - at]
    {
      if k < at {
        assert after[k] == after[..at][k];
        assert before[k] == before[..at][k];
      } else if k >= at + |src| {
        assert after[k] == after[at + |src|..][k - at - |src|];
        assert before[k] == before[at + |src|..][k - at - |src|];
      } else {
        assert after[k] == after[at..at + |src|][k - at];
      }
    }
  }

  /** What the first i turns of the filling loop have written. */
  ghost predicate Filled(s: bytes, names: seq<Name>, items: map<Name, Item>, i: nat)
    requires Elements(names) <= items.Keys && ValidItems(items) && i <= |names|
  {
    var n, t := |names|, NameOffset(names, i);
    && |s| == NameOffset(names, n) && t <= |s|
    && s[0..HEAD] == Header(n, |s|)
    && s[HEAD..HEAD + 4 * i] == Flat(Dentries(names, items)[..i])
    && s[HEAD + 4 * n..HEAD + 4 * n + 8 * i] == Flat(Hashes(names, items)[..i])
    && s[HEAD + 12 * n..t] == Flat(Strings(names)[..i])
  }

  lemma FilledIsLayout(s: bytes, names: seq<Name>, items: map<Name, Item>)
    requires Elements(names) <= items.Keys && ValidItems(items) && Filled(s, names, items, |names|)
    ensures s == Layout(names, items)
  {
    hide Put, Flat, Dentry, Header;
    var n := |names|;
    assert Dentries(names, items)[..n] == Dentries(names, items);
    assert Hashes(names, items)[..n] == Hashes(names, items);
    assert Strings(names)[..n] == Strings(names);
    assert s == s[0..HEAD] + s[HEAD..HEAD + 4 * n] + s[HEAD + 4 * n..HEAD + 12 * n] + s[HEAD + 12 * n..|s|];
  }

  /** The header and the filled parts of the three regions: entries up to a,
      hashes from b to b', names from c to o. */
  ghost predicate Parts(s: bytes, a: nat, b: nat, b': nat, c: nat, o: nat, head: bytes, d: bytes, h: bytes, t: bytes) {
    && HEAD <= a <= b <= b' <= c <= o <= |s|
    && s[0..HEAD] == head && s[HEAD..a] == d && s[b..b'] == h && s[c..o] == t
  }

  /** A copy at one of the cursors fills that region further and leaves the
      others. */
  lemma EntryWritten(s: bytes, s': bytes, a: nat, b: nat, b': nat, c: nat, o: nat, head: bytes, d: bytes, h: bytes,
                     t: bytes, src: bytes)
    requires Parts(s, a, b, b', c, o, head, d, h, t) && Wrote(s, s', a, src) && a + |src| <= b
    ensures Parts(s', a + |src|, b, b', c, o, head, d + src, h, t)
  {
    hide Wrote;
    WroteFits(s, s', a, src);
    SliceKept(s, s', a, src, 0, HEAD);
    SliceKept(s, s', a, src, HEAD, a);
    SliceKept(s, s', a, src, b, b');
    SliceKept(s, s', a, src, c, o);
  }

  lemma NameWritten(s: bytes, s': bytes, a: nat, b: nat, b': nat, c: nat, o: nat, head: bytes, d: bytes, h: bytes,
                    t: bytes, src: bytes)
    requires Parts(s, a, b, b', c, o, head, d, h, t) && Wrote(s, s', o, src)
    ensures Parts(s', a, b, b', c, o + |src|, head, d, h, t + src)
  {
    hide Wrote;
    WroteFits(s, s', o, src);
    SliceKept(s, s', o, src, 0, HEAD);
    SliceKept(s, s', o, src, HEAD, a);
    SliceKept(s, s', o, src, b, b');
    SliceKept(s, s', o, src, c, o);
  }

  lemma HashWritten(s: bytes, s': bytes, a: nat, b: nat, b': nat, c: nat, o: nat, head: bytes, d: bytes, h: bytes,
                    t: bytes, src: bytes)
    requires Parts(s, a, b, b', c, o, head, d, h, t) && Wrote(s, s', b', src) && b' + |src| <= c
    ensures Parts(s', a, b, b' + |src|, c, o, head, d, h + src, t)
  {
    hide Wrote;
    WroteFits(s, s', b', src);
    SliceKept(s, s', b', src, 0, HEAD);
    SliceKept(s, s', b', src, HEAD, a);
    SliceKept(s, s', b', src, b, b');
    SliceKept(s, s', b', src, c, o);
  }

  /** Three copies at the three cursors are one more row. */
  lemma RowFilled(s0: bytes, s1: bytes, s2: bytes, s3: bytes, names: seq<Name>, items: map<Name, Item>, i: nat)
    requires Elements(names) <= items.Keys && ValidItems(items) && i < |names|
    requires Filled(s0, names, items, i)
    requires Wrote(s0, s1, HEAD + 4 * i, Dentries(names, items)[i])
    requires Wrote(s1, s2, NameOffset(names, i), Strings(names)[i])
    requires Wrote(s2, s3, HEAD + 4 * |names| + 8 * i, Hashes(names, items)[i])
    ensures Filled(s3, names, items, i + 1)
  {
    hide Put, Flat, Header, Dentry, Wrote, Dentries, Hashes, Strings, ValidItems, Elements;
    var n, d, h, t := |names|, Dentries(names, items), Hashes(names, items), Strings(names);
    var o, a, b, c := NameOffset(names, i), HEAD + 4 * i, HEAD + 4 * n, HEAD + 12 * n;
    var d0, h0, t0, head := Flat(d[..i]), Flat(h[..i]), Flat(t[..i]), Header(n, |s0|);
    FlatNext(d, i);
    FlatNext(h, i);
    FlatNext(t, i);
    RowWidths(names, items, i);
    WroteFits(s0, s1, a, d[i]);
    WroteFits(s1, s2, o, t[i]);
    WroteFits(s2, s3, b + 8 * i, h[i]);
    EntryWritten(s0, s1, a, b, b + 8 * i, c, o, head, d0, h0, t0, d[i]);
    NameWritten(s1, s2, a + 4, b, b + 8 * i, c, o, head, d0 + d[i], h0, t0, t[i]);
    HashWritten(s2, s3, a + 4, b, b + 8 * i, c, o + |t[i]|, head, d0 + d[i], h0, t0 + t[i], h[i]);
  }

  lemma WroteFits(before: bytes, after: bytes, at: nat, src: bytes)
    requires Wrote(before, after, at, src)
    ensures |before| == |after| && at + |src| <= |after|
  {
  }

  lemma RowWidths(names: seq<Name>, items: map<Name, Item>, i: nat)
    requires Elements(names) <= items.Keys && ValidItems(items) && i < |names|
    ensures |Dentries(names, items)[i]| == 4 && |Hashes(names, items)[i]| == 8
    ensures |Strings(names)[i]| == |names[i]| + 1
  {
    hide Dentry, Put;
  }

  /** The room the names take. */
  method NamesTotal(names: seq<Name>) returns (total: nat)
    ensures HEAD + 12 * |names| + total == NameOffset(names, |names|)
  {
    hide Flat;
    total := 0;
    EmptyFlat(Strings(names));
    for i := 0 to |names|
      invariant total == |Flat(Strings(names)[..i])|
    {
      FlatNext(Strings(names), i);
      total := total + |names[i]| + 1;
    }
  }

  lemma EmptyFlat(parts: seq<bytes>)
    ensures Flat(parts[..0]) == []
  {
  }

  /** A zeroed object of the right size with its header. */
  method NewObject(names: seq<Name>, ghost items: map<Name, Item>) returns (obj: array<byte>)
    requires ValidItems(items) && Elements(names) == items.Keys
    ensures fresh(obj) && Filled(obj[..], names, items, 0)
  {
    hide Flat, Put, Header, Dentry;
    var total := NamesTotal(names);
    var n := |names|;
    var size := HEAD + 12 * n + total;
    obj := new byte[size](_ => 0);
    ghost var zeros := obj[..];
    WriteAt(obj, 0, Header(n, size));
    assert obj[..][0..HEAD] == Header(n, size);
    EmptyFlat(Strings(names));
    EmptyFlat(Hashes(names, items));
    EmptyFlat(Dentries(names, items));
    assert NameOffset(names, 0) == HEAD + 12 * n;
  }

  /** One turn of the filling loop. */
  method FillRow(obj: array<byte>, names: seq<Name>, items: map<Name, Item>, i: nat, strptr: nat) returns (next: nat)
    requires ValidItems(items) && Elements(names) == items.Keys && i < |names|
    requires Filled(obj[..], names, items, i) && strptr == NameOffset(names, i)
    modifies obj
    ensures Filled(obj[..], names, items, i + 1) && next == NameOffset(names, i + 1)
  {
    hide Put, Flat, Header, Dentry, Wrote, Dentries, Hashes, Strings;
    var n, name := |names|, names[i];
    RowFits(obj[..], names, items, i);
    ghost var s0 := obj[..];
    WriteAt(obj, HEAD + 4 * i, Dentry(names, items, i));
    ghost var s1 := obj[..];
    WriteAt(obj, strptr, name + [0]);
    ghost var s2 := obj[..];
    WriteAt(obj, HEAD + 4 * n + 8 * i, Put(8, items[name].hash));
    RowFilled(s0, s1, s2, obj[..], names, items, i);
    next := strptr + |name| + 1;
  }

  lemma RowFits(s: bytes, names: seq<Name>, items: map<Name, Item>, i: nat)
    requires ValidItems(items) && Elements(names) == items.Keys && i < |names|
    requires Filled(s, names, items, i)
    ensures names[i] in items
    ensures NameOffset(names, i) + |names[i]| + 1 == NameOffset(names, i + 1) <= |s|
    ensures HEAD + 12 * |names| <= |s|
    ensures Strings(names)[i] == names[i] + [0] && Hashes(names, items)[i] == Put(8, items[names[i]].hash)
    ensures Dentries(names, items)[i] == Dentry(names, items, i)
  {
    hide Put, Flat, Header, Dentry;
    assert names[i] in Elements(names);
    OffsetsFit(names, i + 1);
    FlatNext(Strings(names), i);
  }

  /** ogl_dir::dump up to the hashing: sort, lay the regions out, fill them. */
  method BuildObject(collected: seq<Name>, items: map<Name, Item>) returns (obj: array<byte>)
    requires ValidItems(items) && Distinct(collected) && Elements(collected) == items.Keys
    ensures fresh(obj) && obj[..] == EncodeDir(items)
  {
    hide Filled, Flat, Layout, Sort;
    var names := Sort(collected);
    OrderIrrelevant(collected, items);
    obj := NewObject(names, items);
    var strptr := HEAD + 12 * |names|;
    EmptyFlat(Strings(names));
    for i := 0 to |names|
      invariant strptr == NameOffset(names, i)
      invariant fresh(obj) && Filled(obj[..], names, items, i)
    {
      strptr := FillRow(obj, names, items, i, strptr);
    }
    FilledIsLayout(obj[..], names, items);
  }

  // ------------------------------------------------------------------
  // Past 64 KiB.

  /** A string that starts like a name and ends inside the object holds all of
      the name. */
  lemma {:induction false} CStringNeedsEnd(s: bytes, at: nat, name: bytes)
    requires 0 !in name && CString(s, at).Text?
    requires forall k :: 0 <= k < |name| && at + k < |s| ==> s[at + k] == name[k]
    ensures at + |name| < |s|
    decreases |name|
  {
    if name != [] {
      assert s[at + 0] == name[0] && name[0] in name;
      forall k | 0 <= k < |name[1..]| && at + 1 + k < |s| ensures s[at + 1 + k] == name[1..][k] {
        assert s[at + (k + 1)] == name[k + 1];
      }
      CStringNeedsEnd(s, at + 1, name[1..]);
    }
  }

  /** If the table of entries survived the cut and row i can be read, then the
      cut comes after the i-th name. */
  lemma RowNeedsName(names: seq<Name>, items: map<Name, Item>, s: bytes, hashOffset: nat, i: nat)
    requires Elements(names) <= items.Keys && ValidItems(items) && i < |names|
    requires s <= Layout(names, items) && |s| < TWO16
    requires NameOffset(names, i) <= |s| && ReadRow(s, hashOffset, i).Row?
    ensures NameOffset(names, i + 1) <= |s|
  {
    hide Put, Get, Flat, Dentry, Layout, CString, Pow256, Dentries;
    var obj, n, d, o := Layout(names, items), |names|, Dentries(names, items), NameOffset(names, i);
    assert names[i] in Elements(names);
    Regions(names, items);
    DentryOf(names, items, i);
    FlatUniform(d, 4, i);
    PartAt(obj, HEAD, HEAD + 4 * n, d, i);
    assert HEAD + 4 * i + 4 <= |s| && s[HEAD + 4 * i..HEAD + 4 * i + 4] == obj[HEAD + 4 * i..HEAD + 4 * i + 4];
    DentryRead(s, HEAD + 4 * i, names, items, i);
    assert obj[HEAD + 12 * n..|obj|] == obj[HEAD + 12 * n..];
    PartAt(obj, HEAD + 12 * n, |obj|, Strings(names), i);
    var t := names[i] + [0];
    assert obj[o..o + |t|] == t;
    forall k | 0 <= k < |names[i]| && o + k < |s| ensures s[o + k] == names[i][k] {
      assert s[o + k] == obj[o + k] == obj[o..o + |t|][k];
    }
    CStringNeedsEnd(s, o, names[i]);
    FlatNext(Strings(names), i);
  }

  lemma DentryOf(names: seq<Name>, items: map<Name, Item>, i: nat)
    requires Elements(names) <= items.Keys && ValidItems(items) && i < |names|
    ensures Dentries(names, items)[i] == Dentry(names, items, i) && |Dentries(names, items)| == |names|
    ensures forall k :: 0 <= k < |names| ==> |Dentries(names, items)[k]| == 4
  {
    hide Dentry;
  }

  lemma {:induction false} RowsNeedNames(names: seq<Name>, items: map<Name, Item>, s: bytes, hashOffset: nat, i: nat)
    requires Elements(names) <= items.Keys && ValidItems(items) && i <= |names|
    requires s <= Layout(names, items) && HEAD + 12 * |names| <= |s| < TWO16
    requires ReadRows(s, hashOffset, i).Loaded?
    ensures NameOffset(names, i) <= |s|
  {
    hide Layout, ReadRow, ValidItems;
    if i > 0 {
      RowsNeedNames(names, items, s, hashOffset, i - 1);
      RowNeedsName(names, items, s, hashOffset, i - 1);
    }
  }

  /** i rows give at most i names. */
  lemma {:induction false} FewNames(s: bytes, hashOffset: nat, i: nat)
    requires ReadRows(s, hashOffset, i).Loaded?
    ensures |ReadRows(s, hashOffset, i).refs| <= i
  {
    hide ReadRow;
    if i > 0 {
      FewNames(s, hashOffset, i - 1);
      OneMoreName(ReadRows(s, hashOffset, i - 1).refs, ReadRow(s, hashOffset, i - 1).name, ReadRow(s, hashOffset, i - 1).ref);
    }
  }

  lemma OneMoreName(m: map<Name, Ref>, n: Name, r: Ref)
    ensures |m[n := r]| <= |m| + 1
  {
    assert m[n := r].Keys == m.Keys + {n};
    assert |m.Keys + {n}| <= |m.Keys| + 1;
  }

  lemma {:induction false} DistinctCount(names: seq<Name>)
    requires Ascending(names)
    ensures |Elements(names)| == |names|
  {
    if names != [] {
      var rest := names[1..];
      DistinctCount(rest);
      forall n ensures n in Elements(names) <==> n in {names[0]} + Elements(rest) {
        TailElements(names, n);
        assert names[0] in names;
      }
      TailElements(names, names[0]);
      assert Elements(names) == {names[0]} + Elements(rest);
    }
  }

  /** The first part of an object too long for its size field. */
  lemma CutObject(names: seq<Name>, items: map<Name, Item>)
    requires Elements(names) == items.Keys && ValidItems(items) && Ascending(names)
    requires |Layout(names, items)| >= TWO16
    ensures var s := StoredPart(Layout(names, items));
      && s <= Layout(names, items) && |s| == |Layout(names, items)| % TWO16
      && (|s| >= HEAD ==> Short(s, 6) == |names| % TWO16 && Short(s, 8) == (HEAD + 4 * |names|) % TWO16)
  {
    hide Get, Put, Layout, Header, Flat;
    var obj, n := Layout(names, items), |names|;
    Regions(names, items);
    SizeFieldWraps(n, |obj|, obj);
    var s := StoredPart(obj);
    if |s| >= HEAD {
      assert s[..HEAD] == obj[..HEAD];
      CountFields(n, |obj|, s);
    }
  }

  lemma CountFields(n: nat, size: nat, s: bytes)
    requires |s| >= HEAD && s[..HEAD] == Header(n, size)
    ensures Short(s, 6) == n % TWO16 && Short(s, 8) == (HEAD + 4 * n) % TWO16
  {
    hide Get, Put;
    var h := Header(n, size);
    assert h[6..8] == Put(2, n) && h[8..10] == Put(2, HEAD + 4 * n);
    SliceOfSlice(s, 0, HEAD, 6, 8);
    SliceOfSlice(s, 0, HEAD, 8, 10);
    assert s[0..HEAD] == s[..HEAD];
    TwoBytes(n);
    TwoBytes(HEAD + 4 * n);
  }

  /** Past 64 KiB the size field wraps and what is stored is not read back. */
  lemma TooLongIsLost(names: seq<Name>, items: map<Name, Item>)
    requires Elements(names) == items.Keys && ValidItems(items) && Ascending(names)
    requires |Layout(names, items)| >= TWO16
    ensures DecodeDir(StoredPart(Layout(names, items))) != Loaded(Refs(items))
  {
    hide Get, Put, Layout, ReadRows, Short, NameOffset, StoredPart, Strings, DecodeDir, Ascending, Elements, ValidItems;
    var obj, n := Layout(names, items), |names|;
    var s := StoredPart(obj);
    CutObject(names, items);
    DistinctCount(names);
    assert Refs(items).Keys == items.Keys;
    if DecodeDir(s) == Loaded(Refs(items)) {
      DecodesRows(s);
      var rows, hashes := Short(s, 6), Short(s, 8);
      FewNames(s, hashes, rows);
      assert n <= rows && n < TWO16;
      Regions(names, items);
      assert n > 0 by { EmptyObject(names, items); }
      LastRow(s, hashes, n);
      RowsNeedNames(names, items, s, hashes, n);
      assert false;
    }
  }

  lemma DecodesRows(s: bytes)
    requires DecodeDir(s).Loaded?
    ensures |s| >= HEAD && DecodeDir(s) == ReadRows(s, Short(s, 8), Short(s, 6))
  {
    hide ReadRows, Short;
  }

  lemma EmptyObject(names: seq<Name>, items: map<Name, Item>)
    requires Elements(names) <= items.Keys && ValidItems(items)
    ensures names == [] ==> |Layout(names, items)| == HEAD
  {
    hide Put, Header;
  }

  /** The last row's place in both tables is inside. */
  lemma LastRow(s: bytes, hashOffset: nat, n: nat)
    requires n > 0 && ReadRows(s, hashOffset, n).Loaded?
    ensures HEAD + 4 * n <= |s| && hashOffset + 8 * n <= |s|
  {
    hide CString, Get;
    assert ReadRow(s, hashOffset, n - 1).Row?;
  }

  /** A dumped directory is read back exactly when its object is under 64 KiB. */
  lemma ReadBackIff(items: map<Name, Item>)
    requires ValidItems(items)
    ensures DecodeDir(StoredPart(EncodeDir(items))) == Loaded(Refs(items)) <==> |EncodeDir(items)| < TWO16
  {
    hide Layout, DecodeDir, StoredPart, Ordered;
    if |EncodeDir(items)| < TWO16 {
      LoadDump(items);
    } else {
      TooLongIsLost(Ordered(items.Keys), items);
    }
  }

  lemma SizeFieldWraps(n: nat, size: nat, obj: bytes)
    requires |obj| >= HEAD && obj[..HEAD] == Header(n, size)
    ensures Short(obj, 4) == size % TWO16
  {
    hide Get, Put;
    var h := Header(n, size);
    assert h[4..6] == Put(2, size);
    SliceOfSlice(obj, 0, HEAD, 4, 6);
    assert obj[0..HEAD] == obj[..HEAD];
    TwoBytes(size);
  }

  lemma TwoBytes(size: nat)
    ensures Get(Put(2, size)) == size % TWO16
  {
    var a, q := size % 256, size / 256;
    var b := q % 256;
    assert Put(2, size) == [a] + Put(1, q);
    assert Put(1, q) == [b] + Put(0, q / 256) == [b];
    assert [a, b][1..] == [b] && [b][1..] == [];
    assert Get([b]) == b;
    assert Get([a, b]) == a + 256 * b;
    assert size == 65536 * (q / 256) + (256 * b + a);
  }
}
