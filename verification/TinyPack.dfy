/** The chained packer and unpacker: a message is the concatenation of its
    fields, written from the last field to the first. */
module TinyPack {
  import opened Wire

  /** A field's value: the bytes of a plain object, a C string, or a buffer of a
      size both sides know. */
  datatype Value = Plain(data: bytes) | Str(s: bytes) | Fixed(buf: bytes)

  /** What the unpacking side declares for a field. */
  datatype Kind = KPlain(n: nat) | KStr | KFixed(n: nat)

  /** tinypack<Base, T> and tinyunpack<Base, T>: a field after a base. */
  datatype Chain<T> = Start | Then(base: Chain<T>, field: T)

  predicate ValidValue(v: Value) {
    match v
    case Plain(data) => data != []
    case Str(s) => 0 !in s
    case Fixed(_) => true
  }

  ghost predicate ValidChain(c: Chain<Value>) {
    c.Then? ==> ValidValue(c.field) && ValidChain(c.base)
  }

  function KindOf(v: Value): Kind {
    match v
    case Plain(data) => KPlain(|data|)
    case Str(_) => KStr
    case Fixed(buf) => KFixed(|buf|)
  }

  function KindsOf(c: Chain<Value>): Chain<Kind> {
    if c.Start? then Start else Then(KindsOf(c.base), KindOf(c.field))
  }

  function Values<T>(c: Chain<T>): seq<T> {
    if c.Start? then [] else Values(c.base) + [c.field]
  }

  // ------------------------------------------------------------------
  // Packing.

  function ValueSize(v: Value): nat {
    match v
    case Plain(data) => |data|
    case Str(s) => 4 + |s| + 1
    case Fixed(buf) => |buf| + 4
  }

  function GetSize(c: Chain<Value>): nat {
    if c.Start? then 0 else GetSize(c.base) + ValueSize(c.field)
  }

  /** What a field looks like in the message. */
  function Encoded(v: Value): (r: bytes)
    ensures |r| == ValueSize(v)
  {
    match v
    case Plain(data) => data
    case Str(s) => Put(4, |s| + 1) + s + [0]
    case Fixed(buf) => Put(4, |buf|) + buf
  }

  function Message(c: Chain<Value>): (r: bytes)
    ensures |r| == GetSize(c)
  {
    if c.Start? then [] else Message(c.base) + Encoded(c.field)
  }

  /** The positions from lo up to hi. */
  function Range(lo: nat, hi: nat): (r: seq<nat>)
    requires lo <= hi
    ensures |r| == hi - lo
    decreases hi - lo
  {
    if lo == hi then [] else Range(lo, hi - 1) + [hi - 1]
  }

  /** s with src over what was at `at`. */
  function Spliced(s: bytes, at: nat, src: bytes): (r: bytes)
    requires at + |src| <= |s|
    ensures |r| == |s|
  {
    s[..at] + src + s[at + |src|..]
  }

  /** Two splices side by side, in either order, are one. */
  lemma SplicesJoin(s: bytes, at: nat, x: bytes, y: bytes)
    requires at + |x| + |y| <= |s|
    ensures Spliced(Spliced(s, at, x), at + |x|, y) == Spliced(s, at, x + y)
    ensures Spliced(Spliced(s, at + |x|, y), at, x) == Spliced(s, at, x + y)
  {
    var r := Spliced(s, at, x + y);
    var u, v := Spliced(Spliced(s, at, x), at + |x|, y), Spliced(Spliced(s, at + |x|, y), at, x);
    forall k | 0 <= k < |s| ensures u[k] == r[k] && v[k] == r[k] {
    }
  }

  lemma NothingSpliced(s: bytes, at: nat)
    requires at <= |s|
    ensures Spliced(s, at, []) == s
  {
  }

  /** memcpy; `log` collects the positions written. */
  method MemCpy(buf: array<byte>, at: nat, src: bytes, ghost log: seq<nat>) returns (ghost log': seq<nat>)
    requires at + |src| <= buf.Length
    modifies buf
    ensures buf[..] == Spliced(old(buf[..]), at, src)
    ensures log' == log + Range(at, at + |src|)
  {
    log' := log;
    for i := 0 to |src|
      invariant forall k :: 0 <= k < buf.Length ==> buf[k] == if at <= k < at + i then src[k - at] else old(buf[k])
      invariant log' == log + Range(at, at + i)
    {
      buf[at + i] := src[i];
      log' := log' + [at + i];
    }
  }

  /** The writebuf of the three value traits. */
  method WriteValue(v: Value, buf: array<byte>, at: nat, ghost log: seq<nat>) returns (ghost log': seq<nat>)
    requires at + ValueSize(v) <= buf.Length
    modifies buf
    ensures buf[..] == Spliced(old(buf[..]), at, Encoded(v))
    ensures log' == log + Range(at, at + ValueSize(v))
  {
    hide Put, Spliced, Range;
    match v {
      case Plain(data) =>
        log' := MemCpy(buf, at, data, log);
      case Str(s) =>
        log' := WriteSized(buf, at, |s| + 1, s + [0], log);
        assert Put(4, |s| + 1) + s + [0] == Put(4, |s| + 1) + (s + [0]);
      case Fixed(data) =>
        log' := WriteSized(buf, at, |data|, data, log);
    }
  }

  /** A length and then the bytes. */
  method WriteSized(buf: array<byte>, at: nat, sz: nat, src: bytes, ghost log: seq<nat>) returns (ghost log': seq<nat>)
    requires |src| == sz && at + 4 + sz <= buf.Length
    modifies buf
    ensures buf[..] == Spliced(old(buf[..]), at, Put(4, sz) + src)
    ensures log' == log + Range(at, at + (4 + sz))
  {
    hide Put, Spliced, Range;
    SplicesJoin(buf[..], at, Put(4, sz), src);
    RangesJoin(at, at + 4, at + 4 + sz);
    log' := MemCpy(buf, at, Put(4, sz), log);
    log' := MemCpy(buf, at + 4, src, log');
    assert (log + Range(at, at + 4)) + Range(at + 4, at + 4 + sz) == log + (Range(at, at + 4) + Range(at + 4, at + 4 + sz));
  }

  lemma {:induction false} RangesJoin(a: nat, b: nat, c: nat)
    requires a <= b <= c
    ensures Range(a, b) + Range(b, c) == Range(a, c)
    decreases c
  {
    if b < c {
      RangesJoin(a, b, c - 1);
    } else {
      assert Range(b, c) == [];
    }
  }

  /** The order in which packing writes: the last field first. */
  function WriteOrder(c: Chain<Value>, at: nat): seq<nat> {
    if c.Start? then []
    else Range(at + GetSize(c.base), at + GetSize(c)) + WriteOrder(c.base, at)
  }

  /** tinypack::writebuf. */
  method WriteBuf(c: Chain<Value>, buf: array<byte>, at: nat, ghost log: seq<nat>) returns (ghost log': seq<nat>)
    requires at + GetSize(c) <= buf.Length
    modifies buf
    ensures buf[..] == Spliced(old(buf[..]), at, Message(c))
    ensures log' == log + WriteOrder(c, at)
    decreases c
  {
    hide Encoded, Range, ValueSize, Spliced;
    log' := log;
    if c.Start? {
      NothingSpliced(buf[..], at);
    } else {
      SplicesJoin(buf[..], at, Message(c.base), Encoded(c.field));
      log' := WriteValue(c.field, buf, at + GetSize(c.base), log');
      log' := WriteBuf(c.base, buf, at, log');
    }
  }

  /** pack: every byte of the new buffer is written, and written once. */
  method Pack(c: Chain<Value>) returns (buf: array<byte>, ghost log: seq<nat>)
    ensures fresh(buf) && buf[..] == Message(c) && log == WriteOrder(c, 0)
  {
    buf := new byte[GetSize(c)](_ => 0);
    log := WriteBuf(c, buf, 0, []);
  }

  method PackSizePrefix(c: Chain<Value>) returns (buf: array<byte>, ghost log: seq<nat>)
    ensures fresh(buf) && buf[..] == Put(4, GetSize(c)) + Message(c)
    ensures log == Range(0, 4) + WriteOrder(c, 4)
  {
    hide Put, Range;
    var sz := GetSize(c);
    buf := new byte[4 + sz](_ => 0);
    SplicesJoin(buf[..], 0, Put(4, sz), Message(c));
    log := MemCpy(buf, 0, Put(4, sz), []);
    log := WriteBuf(c, buf, 4, log);
  }

  lemma {:induction false} RangeOnce(lo: nat, hi: nat, p: nat)
    requires lo <= hi
    ensures multiset(Range(lo, hi))[p] == if lo <= p < hi then 1 else 0
    decreases hi - lo
  {
    if lo < hi {
      RangeOnce(lo, hi - 1, p);
    }
  }

  /** Back to front, each byte of the message exactly once. */
  lemma {:induction false} WrittenOnce(c: Chain<Value>, at: nat, p: nat)
    ensures multiset(WriteOrder(c, at))[p] == if at <= p < at + GetSize(c) then 1 else 0
  {
    if c.Then? {
      RangeOnce(at + GetSize(c.base), at + GetSize(c), p);
      WrittenOnce(c.base, at, p);
    }
  }

  // ------------------------------------------------------------------
  // Unpacking. `mem` is what lies in memory from the buffer on; a message may
  // be shorter than what it was cut from.

  /** A size, a rejection (-1), or a read or a sum C++ does not define. */
  datatype Sizing = Size(n: nat) | Reject | Wild

  /** The rsize of the three value traits: only the first two look at `size`
      again once the length field is there. */
  function RSize(k: Kind, mem: bytes, at: nat, size: nat): Sizing {
    match k
    case KPlain(n) => if size < n then Reject else Size(n)
    case KStr =>
      if size < 4 then Reject
      else if at + 4 > |mem| then Wild
      else
        var full := Field(mem, at) + 4;
        if size < full then Reject else if full >= TWO31 then Reject else Size(full)
    case KFixed(n) =>
      if size < 4 then Reject
      else if at + 4 > |mem| then Wild
      else if Field(mem, at) != n then Reject else if n + 4 >= TWO31 then Reject else Size(n + 4)
  }

  /** bufsz - basesz in 32 bits. */
  function Left(bufsz: nat, basesz: nat): nat {
    if basesz <= bufsz then bufsz - basesz else (bufsz + TWO32 - basesz % TWO32) % TWO32
  }

  /** tinyunpack::get_size. */
  function USize(c: Chain<Kind>, mem: bytes, bufsz: nat): Sizing {
    if c.Start? then Size(0)
    else
      var base := USize(c.base, mem, bufsz);
      if !base.Size? then base
      else
        var v := RSize(c.field, mem, base.n, Left(bufsz, base.n));
        if !v.Size? then v else if base.n + v.n >= TWO31 then Wild else Size(base.n + v.n)
  }

  predicate CheckCompleted(c: Chain<Kind>, mem: bytes, bufsz: nat) {
    USize(c, mem, bufsz).Size?
  }

  /** The C string in a copied buffer. */
  function UpToZero(s: bytes): bytes {
    if s == [] || s[0] == 0 then [] else [s[0]] + UpToZero(s[1..])
  }

  /** Whether readbuf at this place stays in memory. */
  predicate CanRead(k: Kind, mem: bytes, at: nat) {
    match k
    case KPlain(n) => at + n <= |mem|
    case KStr => at + 4 <= |mem| && at + 4 + Field(mem, at) <= |mem|
    case KFixed(n) => at + 4 + n <= |mem|
  }

  function ReadBuf(k: Kind, mem: bytes, at: nat): Value
    requires CanRead(k, mem, at)
  {
    match k
    case KPlain(n) => Plain(mem[at..at + n])
    case KStr => Str(UpToZero(mem[at + 4..at + 4 + Field(mem, at)]))
    case KFixed(n) => Fixed(mem[at + 4..at + 4 + n])
  }

  ghost predicate CanUnpack(c: Chain<Kind>, mem: bytes, bufsz: nat) {
    c.Then? ==>
      && USize(c.base, mem, bufsz).Size? && CanRead(c.field, mem, USize(c.base, mem, bufsz).n)
      && CanUnpack(c.base, mem, bufsz)
  }

  function Length<T>(c: Chain<T>): nat {
    if c.Start? then 0 else Length(c.base) + 1
  }

  /** What the targets hold afterwards. */
  ghost function Unpacked(c: Chain<Kind>, mem: bytes, bufsz: nat): (r: seq<Value>)
    requires CanUnpack(c, mem, bufsz)
    ensures |r| == Length(c)
  {
    if c.Start? then []
    else Unpacked(c.base, mem, bufsz) + [ReadBuf(c.field, mem, USize(c.base, mem, bufsz).n)]
  }

  /** tinyunpack::unpack, with the target variables of the fields in a row. */
  method Unpack(c: Chain<Kind>, mem: bytes, bufsz: nat, targets: array<Value>)
    requires CanUnpack(c, mem, bufsz) && Length(c) <= targets.Length
    modifies targets
    ensures targets[..] == Unpacked(c, mem, bufsz) + old(targets[Length(c)..])
    decreases c
  {
    hide ReadBuf, CanRead, USize;
    if c.Then? {
      var basesz := USize(c.base, mem, bufsz);
      ghost var n, before := Length(c.base), targets[..];
      targets[Length(c.base)] := ReadBuf(c.field, mem, basesz.n);
      assert targets[n..] == [ReadBuf(c.field, mem, basesz.n)] + before[n + 1..];
      Unpack(c.base, mem, bufsz, targets);
    }
  }

  // ------------------------------------------------------------------
  // What packing promises unpacking.

  lemma {:induction false} UpToZeroOf(s: bytes)
    requires 0 !in s
    ensures UpToZero(s + [0]) == s
  {
    if s != [] {
      assert (s + [0])[1..] == s[1..] + [0];
      UpToZeroOf(s[1..]);
    }
  }

  /** One field read where it was written. */
  lemma FieldReads(v: Value, before: bytes, after: bytes, size: nat)
    requires ValidValue(v) && ValueSize(v) < TWO31
    ensures var mem, at, k := before + Encoded(v) + after, |before|, KindOf(v);
      && CanRead(k, mem, at) && ReadBuf(k, mem, at) == v
      && (size >= ValueSize(v) ==> RSize(k, mem, at, size) == Size(ValueSize(v)))
      && (size < ValueSize(v) ==>
            RSize(k, mem, at, size) == if v.Fixed? && size >= 4 then Size(ValueSize(v)) else Reject)
  {
    hide Put, Get, Field;
    var mem, at := before + Encoded(v) + after, |before|;
    match v {
      case Plain(data) =>
        assert mem[at..at + |data|] == data;
      case Str(s) =>
        FieldOf(before, |s| + 1, s + [0] + after);
        assert mem == before + Put(4, |s| + 1) + (s + [0] + after);
        assert mem[at + 4..at + 4 + (|s| + 1)] == s + [0];
        UpToZeroOf(s);
      case Fixed(buf) =>
        FieldOf(before, |buf|, buf + after);
        assert mem == before + Put(4, |buf|) + (buf + after);
        assert mem[at + 4..at + 4 + |buf|] == buf;
    }
  }

  /** Whether a cut falls into the body of a fixed buffer. */
  predicate CutInFixedBody(c: Chain<Value>, cut: nat) {
    c.Then? &&
    (if cut < GetSize(c.base) then CutInFixedBody(c.base, cut)
     else cut < GetSize(c) && c.field.Fixed? && cut - GetSize(c.base) >= 4)
  }

  /** Any number of bytes of a packed message: the whole is measured as packed;
      a part is rejected, except when it ends in the body of a fixed buffer, and
      then everything after it is let through too. */
  lemma {:induction false} Measured(c: Chain<Value>, rest: bytes, bufsz: nat)
    requires ValidChain(c) && GetSize(c) < TWO31 && bufsz < TWO32
    ensures var u := USize(KindsOf(c), Message(c) + rest, bufsz);
      u == if bufsz >= GetSize(c) || CutInFixedBody(c, bufsz) then Size(GetSize(c)) else Reject
  {
    hide RSize, Encoded, Left, ValueSize;
    if c.Then? {
      var b, v := c.base, c.field;
      var rest' := Encoded(v) + rest;
      assert Message(c) + rest == Message(b) + rest' == Message(b) + Encoded(v) + rest;
      Measured(b, rest', bufsz);
      LeftOver(bufsz, GetSize(b));
      FieldReads(v, Message(b), rest, Left(bufsz, GetSize(b)));
    }
  }

  /** Past the end of the buffer, what seems to be left is more than any field
      takes. */
  lemma LeftOver(bufsz: nat, basesz: nat)
    requires basesz < TWO31 && bufsz < TWO32
    ensures basesz <= bufsz ==> Left(bufsz, basesz) == bufsz - basesz
    ensures basesz > bufsz ==> Left(bufsz, basesz) > TWO31
  {
  }

  /** The check accepts exactly the buffers that hold the message, and those cut
      inside a fixed buffer. */
  lemma CheckTells(c: Chain<Value>, rest: bytes, bufsz: nat)
    requires ValidChain(c) && GetSize(c) < TWO31 && bufsz < TWO32
    ensures CheckCompleted(KindsOf(c), Message(c) + rest, bufsz) <==>
            bufsz >= GetSize(c) || CutInFixedBody(c, bufsz)
  {
    Measured(c, rest, bufsz);
  }

  ghost predicate NoFixed(c: Chain<Kind>) {
    c.Then? ==> !c.field.KFixed? && NoFixed(c.base)
  }

  lemma {:induction false} NoFixedNoBody(c: Chain<Value>, cut: nat)
    requires NoFixed(KindsOf(c))
    ensures !CutInFixedBody(c, cut)
  {
    if c.Then? {
      NoFixedNoBody(c.base, cut);
    }
  }

  /** Unpacking gives back what was packed, and both sides agree on the size. */
  lemma {:induction false} UnpackPack(c: Chain<Value>, rest: bytes, bufsz: nat)
    requires ValidChain(c) && GetSize(c) < TWO31 && GetSize(c) <= bufsz < TWO32
    ensures var mem := Message(c) + rest;
      && USize(KindsOf(c), mem, bufsz) == Size(GetSize(c))
      && CanUnpack(KindsOf(c), mem, bufsz) && Unpacked(KindsOf(c), mem, bufsz) == Values(c)
  {
    hide RSize, Encoded, ReadBuf, CanRead;
    Measured(c, rest, bufsz);
    if c.Then? {
      var b, v := c.base, c.field;
      var rest' := Encoded(v) + rest;
      assert Message(c) + rest == Message(b) + rest' == Message(b) + Encoded(v) + rest;
      UnpackPack(b, rest', bufsz);
      FieldReads(v, Message(b), rest, 0);
    }
  }

  /** Without fixed buffers the check is all unpacking needs, whatever bytes
      arrive: no read leaves the buffer. */
  lemma {:induction false} CheckedStaysInside(c: Chain<Kind>, mem: bytes, bufsz: nat)
    requires NoFixed(c) && bufsz <= |mem| && bufsz < TWO31
    ensures USize(c, mem, bufsz) != Wild
    ensures CheckCompleted(c, mem, bufsz) ==> USize(c, mem, bufsz).n <= bufsz && CanUnpack(c, mem, bufsz)
  {
    hide Field;
    if c.Then? {
      CheckedStaysInside(c.base, mem, bufsz);
    }
  }
}
