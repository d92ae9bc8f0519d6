/** The 64-bit content hashes of the repository: the first eight bytes of the
    SHA-256 digest. */
module OglHash {
  import Wire
  import opened Sha256Spec
  import opened Sha256

  const BUF_SZ: nat := 32768

  /** The first n bytes as a number, the most significant first. */
  function FirstBytes(d: seq<bv8>, n: nat): (h: nat)
    requires n <= |d|
    ensures h < Wire.Pow256(n)
  {
    if n == 0 then 0 else 256 * FirstBytes(d, n - 1) + d[n - 1] as nat
  }

  function ContentHash(m: seq<bv8>): nat {
    FirstBytes(Sha256Spec.Sha256(m), 8)
  }

  method Truncate(digest: array<bv8>) returns (hash: nat)
    requires digest.Length == DIGEST
    ensures hash == FirstBytes(digest[..], 8)
  {
    hash := 0;
    for i := 0 to 8
      invariant hash == FirstBytes(digest[..], i)
    {
      hash := 256 * hash + digest[i] as nat;
    }
  }

  /** compute_hash_buf. */
  method HashBuf(buf: array<bv8>, size: nat) returns (hash: nat)
    requires size <= buf.Length
    ensures hash == ContentHash(buf[..size])
  {
    hide Blocks, InitialHash, FirstBytes, Sha256Spec.Sha256, Whole, Tail;
    var ctx := new Context();
    ctx.Update(buf, size);
    assert [] + buf[..size] == buf[..size];
    hash := Finish(ctx);
  }

  function Total(cps: seq<nat>, i: nat): nat
    requires i <= |cps|
  {
    if i == 0 then 0 else Total(cps, i - 1) + cps[i - 1]
  }

  lemma {:induction false} TotalGrows(cps: seq<nat>, i: nat)
    requires i <= |cps|
    ensures Total(cps, i) <= Total(cps, |cps|)
    decreases |cps| - i
  {
    if i < |cps| {
      TotalGrows(cps, i + 1);
    }
  }

  /** ogl_file::compute_hashcode: however read cuts the file, the hash is that of
      its content. cps are what the successive calls of read return before the
      end of the file. */
  method HashFile(file: seq<bv8>, cps: seq<nat>) returns (hash: nat)
    requires (forall i :: 0 <= i < |cps| ==> 0 < cps[i] <= BUF_SZ) && Total(cps, |cps|) == |file|
    ensures hash == ContentHash(file)
  {
    hide Blocks, InitialHash, Padded, DigestOf, FirstBytes, Sha256Spec.Sha256, Whole, Tail;
    var ctx := new Context();
    var buf := new bv8[BUF_SZ](_ => 0);
    var pos := 0;
    for i := 0 to |cps|
      invariant pos == Total(cps, i) <= |file|
      invariant fresh(ctx) && fresh(ctx.state) && fresh(ctx.buffer) && fresh(buf) && buf != ctx.buffer
      invariant ctx.Valid() && ctx.msg == file[..pos]
    {
      TotalGrows(cps, i + 1);
      Absorb(ctx, buf, file, pos, cps[i]);
      pos := pos + cps[i];
    }
    assert file[..pos] == file;
    hash := Finish(ctx);
  }

  method Finish(ctx: Context) returns (hash: nat)
    requires ctx.Valid()
    modifies ctx, ctx.state, ctx.buffer
    ensures hash == ContentHash(old(ctx.msg))
  {
    hide Blocks, InitialHash, Padded, DigestOf, FirstBytes, Sha256Spec.Sha256, Whole, Tail;
    var digest := new bv8[DIGEST](_ => 0);
    ctx.Final(digest);
    hash := Truncate(digest);
  }

  /** One turn of the loop: a read, and an update with what it gave. */
  method Absorb(ctx: Context, buf: array<bv8>, file: seq<bv8>, pos: nat, cp: nat)
    requires pos + cp <= |file| && cp <= buf.Length && buf != ctx.buffer
    requires ctx.Valid() && ctx.msg == file[..pos]
    modifies ctx, ctx.state, ctx.buffer, buf
    ensures ctx.Valid() && ctx.msg == file[..pos + cp]
  {
    hide Blocks, InitialHash, Whole, Tail;
    Read(buf, file, pos, cp);
    ctx.Update(buf, cp);
    assert file[..pos + cp] == file[..pos] + file[pos..pos + cp];
  }

  method Read(buf: array<bv8>, file: seq<bv8>, pos: nat, cp: nat)
    requires cp <= buf.Length && pos + cp <= |file|
    modifies buf
    ensures buf[..cp] == file[pos..pos + cp]
  {
    for i := 0 to cp
      invariant buf[..i] == file[pos..pos + i]
    {
      buf[i] := file[pos + i];
    }
  }

  // ------------------------------------------------------------------
  // The length field.

  function Reverse64(w: bv64): bv64 {
    var t := (w >> 32) | (w << 32);
    var u := ((t & 0xff00ff00ff00ff00) >> 8) | ((t & 0x00ff00ff00ff00ff) << 8);
    ((u & 0xffff0000ffff0000) >> 16) | ((u & 0x0000ffff0000ffff) << 16)
  }

  /** The eight bytes of a word as a little-endian machine stores them. */
  function HostBytes64(w: bv64): seq<bv64> {
    [w & 0xff, (w >> 8) & 0xff, (w >> 16) & 0xff, (w >> 24) & 0xff,
     (w >> 32) & 0xff, (w >> 40) & 0xff, (w >> 48) & 0xff, w >> 56]
  }

  function BigBytes64(w: bv64): seq<bv64> {
    [w >> 56, (w >> 48) & 0xff, (w >> 40) & 0xff, (w >> 32) & 0xff,
     (w >> 24) & 0xff, (w >> 16) & 0xff, (w >> 8) & 0xff, w & 0xff]
  }

  /** The macro puts the bytes of the bit count in the opposite order. */
  lemma Reverse64Reverses(w: bv64)
    ensures HostBytes64(Reverse64(w)) == BigBytes64(w)
  {
  }
}
