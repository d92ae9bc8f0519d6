/** SHA-256 as FIPS 180-4 defines it: padding (section 5.1.1), the message
    schedule and the compression function (section 6.2.2). */
module Sha256Spec {
  import Wire

  const BLOCK: nat := 64
  const DIGEST: nat := 32

  // ------------------------------------------------------------------
  // Section 4.1.2: the six functions.

  function Rotr(n: nat, x: bv32): bv32
    requires n < 32
  {
    (x >> n) | (x << (32 - n))
  }

  function Ch(x: bv32, y: bv32, z: bv32): bv32 { (x & y) ^ (!x & z) }

  function Maj(x: bv32, y: bv32, z: bv32): bv32 { (x & y) ^ (x & z) ^ (y & z) }

  function BigSigma0(x: bv32): bv32 { Rotr(2, x) ^ Rotr(13, x) ^ Rotr(22, x) }

  function BigSigma1(x: bv32): bv32 { Rotr(6, x) ^ Rotr(11, x) ^ Rotr(25, x) }

  function Sigma0(x: bv32): bv32 { Rotr(7, x) ^ Rotr(18, x) ^ (x >> 3) }

  function Sigma1(x: bv32): bv32 { Rotr(17, x) ^ Rotr(19, x) ^ (x >> 10) }

  // ------------------------------------------------------------------
  // Sections 4.2.2 and 5.3.3: the constants.

  type word = n: nat | n < 0x1_0000_0000

  const K0: seq<word> := [0x428a2f98, 0x71374491, 0xb5c0fbcf, 0xe9b5dba5, 0x3956c25b, 0x59f111f1, 0x923f82a4, 0xab1c5ed5]
  const K1: seq<word> := [0xd807aa98, 0x12835b01, 0x243185be, 0x550c7dc3, 0x72be5d74, 0x80deb1fe, 0x9bdc06a7, 0xc19bf174]
  const K2: seq<word> := [0xe49b69c1, 0xefbe4786, 0x0fc19dc6, 0x240ca1cc, 0x2de92c6f, 0x4a7484aa, 0x5cb0a9dc, 0x76f988da]
  const K3: seq<word> := [0x983e5152, 0xa831c66d, 0xb00327c8, 0xbf597fc7, 0xc6e00bf3, 0xd5a79147, 0x06ca6351, 0x14292967]
  const K4: seq<word> := [0x27b70a85, 0x2e1b2138, 0x4d2c6dfc, 0x53380d13, 0x650a7354, 0x766a0abb, 0x81c2c92e, 0x92722c85]
  const K5: seq<word> := [0xa2bfe8a1, 0xa81a664b, 0xc24b8b70, 0xc76c51a3, 0xd192e819, 0xd6990624, 0xf40e3585, 0x106aa070]
  const K6: seq<word> := [0x19a4c116, 0x1e376c08, 0x2748774c, 0x34b0bcb5, 0x391c0cb3, 0x4ed8aa4a, 0x5b9cca4f, 0x682e6ff3]
  const K7: seq<word> := [0x748f82ee, 0x78a5636f, 0x84c87814, 0x8cc70208, 0x90befffa, 0xa4506ceb, 0xbef9a3f7, 0xc67178f2]
  const INITIAL: seq<word> := [0x6a09e667, 0xbb67ae85, 0x3c6ef372, 0xa54ff53a, 0x510e527f, 0x9b05688c, 0x1f83d9ab, 0x5be0cd19]

  const P0: seq<nat> := [2, 3, 5, 7, 11, 13, 17, 19]
  const P1: seq<nat> := [23, 29, 31, 37, 41, 43, 47, 53]
  const P2: seq<nat> := [59, 61, 67, 71, 73, 79, 83, 89]
  const P3: seq<nat> := [97, 101, 103, 107, 109, 113, 127, 131]
  const P4: seq<nat> := [137, 139, 149, 151, 157, 163, 167, 173]
  const P5: seq<nat> := [179, 181, 191, 193, 197, 199, 211, 223]
  const P6: seq<nat> := [227, 229, 233, 239, 241, 251, 257, 263]
  const P7: seq<nat> := [269, 271, 277, 281, 283, 293, 307, 311]

  /** The 64 constants and the numbers they come from, in eight rows. */
  const K256: seq<word> := K0 + K1 + K2 + K3 + K4 + K5 + K6 + K7
  const PRIMES: seq<nat> := P0 + P1 + P2 + P3 + P4 + P5 + P6 + P7

  /** The whole part of the cube root of a number below 343. */
  function CubeFloor(p: nat): nat {
    if p < 8 then 1 else if p < 27 then 2 else if p < 64 then 3 else if p < 125 then 4 else if p < 216 then 5 else 6
  }

  function SquareFloor(p: nat): nat {
    if p < 4 then 1 else if p < 9 then 2 else if p < 16 then 3 else 4
  }

  /** k is the first 32 bits of the fractional part of the cube root of p. */
  predicate CubeRootBits(p: nat, k: nat) {
    var x := 0x1_0000_0000 * CubeFloor(p) + k;
    x * x * x <= p * 0x1_0000_0000_0000_0000_0000_0000 < (x + 1) * (x + 1) * (x + 1)
  }

  predicate SquareRootBits(p: nat, k: nat) {
    var x := 0x1_0000_0000 * SquareFloor(p) + k;
    x * x <= p * 0x1_0000_0000_0000_0000 < (x + 1) * (x + 1)
  }

  /** A row of constants fits a row of numbers. */
  predicate CubeRow(ps: seq<nat>, ks: seq<word>) {
    |ps| == |ks| && (ps == [] || (CubeRootBits(ps[0], ks[0]) && CubeRow(ps[1..], ks[1..])))
  }

  predicate SquareRow(ps: seq<nat>, ks: seq<word>) {
    |ps| == |ks| && (ps == [] || (SquareRootBits(ps[0], ks[0]) && SquareRow(ps[1..], ks[1..])))
  }

  lemma Row0()
    ensures CubeRow(P0, K0)
  {
  }

  lemma Row1()
    ensures CubeRow(P1, K1)
  {
  }

  lemma Row2()
    ensures CubeRow(P2, K2)
  {
  }

  lemma Row3()
    ensures CubeRow(P3, K3)
  {
  }

  lemma Row4()
    ensures CubeRow(P4, K4)
  {
  }

  lemma Row5()
    ensures CubeRow(P5, K5)
  {
  }

  lemma Row6()
    ensures CubeRow(P6, K6)
  {
  }

  lemma Row7()
    ensures CubeRow(P7, K7)
  {
  }

  lemma InitialRow()
    ensures SquareRow(P0, INITIAL)
  {
  }

  lemma {:induction false} CubeRowAt(ps: seq<nat>, ks: seq<word>, t: nat)
    requires CubeRow(ps, ks) && t < |ps|
    ensures CubeRootBits(ps[t], ks[t])
  {
    hide CubeRootBits;
    if t > 0 {
      CubeRowAt(ps[1..], ks[1..], t - 1);
    }
  }

  lemma {:induction false} SquareRowAt(ps: seq<nat>, ks: seq<word>, t: nat)
    requires SquareRow(ps, ks) && t < |ps|
    ensures SquareRootBits(ps[t], ks[t])
  {
    hide SquareRootBits;
    if t > 0 {
      SquareRowAt(ps[1..], ks[1..], t - 1);
    }
  }

  lemma {:induction false} CubeRowsJoin(ps: seq<nat>, ks: seq<word>, qs: seq<nat>, ls: seq<word>)
    requires CubeRow(ps, ks) && CubeRow(qs, ls)
    ensures CubeRow(ps + qs, ks + ls)
  {
    hide CubeRootBits;
    if ps == [] {
      assert ps + qs == qs && ks + ls == ls;
    } else {
      CubeRowsJoin(ps[1..], ks[1..], qs, ls);
      assert (ps + qs)[1..] == ps[1..] + qs && (ks + ls)[1..] == ks[1..] + ls;
    }
  }

  /** The constants are what FIPS 180-4 says they are: bits of the cube roots
      of the numbers in PRIMES, and of the square roots of the first eight. */
  lemma ConstantsAreRoots(t: nat)
    requires t < 64
    ensures |PRIMES| == 64 == |K256| && CubeRootBits(PRIMES[t], K256[t])
    ensures t < 8 ==> SquareRootBits(PRIMES[t], INITIAL[t])
  {
    hide CubeRootBits, SquareRootBits, CubeRow, SquareRow;
    Row0();
    Row1();
    Row2();
    Row3();
    Row4();
    Row5();
    Row6();
    Row7();
    CubeRowsJoin(P0, K0, P1, K1);
    CubeRowsJoin(P0 + P1, K0 + K1, P2, K2);
    CubeRowsJoin(P0 + P1 + P2, K0 + K1 + K2, P3, K3);
    CubeRowsJoin(P0 + P1 + P2 + P3, K0 + K1 + K2 + K3, P4, K4);
    CubeRowsJoin(P0 + P1 + P2 + P3 + P4, K0 + K1 + K2 + K3 + K4, P5, K5);
    CubeRowsJoin(P0 + P1 + P2 + P3 + P4 + P5, K0 + K1 + K2 + K3 + K4 + K5, P6, K6);
    CubeRowsJoin(P0 + P1 + P2 + P3 + P4 + P5 + P6, K0 + K1 + K2 + K3 + K4 + K5 + K6, P7, K7);
    CubeRowAt(PRIMES, K256, t);
    if t < 8 {
      InitialRow();
      SquareRowAt(P0, INITIAL, t);
      assert PRIMES[t] == P0[t];
    }
  }

  /** The constant of a round. */
  function K(t: nat): bv32
    requires t < 64
  {
    K256[t] as bv32
  }

  // ------------------------------------------------------------------
  // Section 6.2.2.

  /** The eight working variables, and the eight words of a hash value. */
  datatype Regs = Regs(a: bv32, b: bv32, c: bv32, d: bv32, e: bv32, f: bv32, g: bv32, h: bv32)

  /** Word t of the message schedule. */
  function W(m: seq<bv32>, t: nat): bv32
    requires |m| == 16
  {
    if t < 16 then m[t] else Expand(W(m, t - 2), W(m, t - 7), W(m, t - 15), W(m, t - 16))
  }

  function Expand(w2: bv32, w7: bv32, w15: bv32, w16: bv32): bv32 {
    Sigma1(w2) + w7 + Sigma0(w15) + w16
  }

  /** Addition modulo 2^32. */
  function Plus(x: bv32, y: bv32): bv32 { x + y }

  function T1(e: bv32, f: bv32, g: bv32, h: bv32, k: bv32, w: bv32): bv32 {
    h + BigSigma1(e) + Ch(e, f, g) + k + w
  }

  function T2(a: bv32, b: bv32, c: bv32): bv32 {
    Plus(BigSigma0(a), Maj(a, b, c))
  }

  function Round(r: Regs, k: bv32, w: bv32): Regs {
    var t1, t2 := T1(r.e, r.f, r.g, r.h, k, w), T2(r.a, r.b, r.c);
    Regs(Plus(t1, t2), r.a, r.b, r.c, Plus(r.d, t1), r.e, r.f, r.g)
  }

  function Rounds(r: Regs, m: seq<bv32>, t: nat): Regs
    requires |m| == 16 && t <= 64
  {
    if t == 0 then r else Round(Rounds(r, m, t - 1), K(t - 1), W(m, t - 1))
  }

  function Add(r: Regs, s: Regs): Regs {
    Regs(Plus(r.a, s.a), Plus(r.b, s.b), Plus(r.c, s.c), Plus(r.d, s.d),
         Plus(r.e, s.e), Plus(r.f, s.f), Plus(r.g, s.g), Plus(r.h, s.h))
  }

  /** Four bytes as a word, the most significant first. */
  function Big(b0: bv8, b1: bv8, b2: bv8, b3: bv8): bv32 {
    ((b0 as bv32) << 24) | ((b1 as bv32) << 16) | ((b2 as bv32) << 8) | (b3 as bv32)
  }

  function BigWord(s: seq<bv8>, i: nat): bv32
    requires 4 * i + 4 <= |s|
  {
    Big(s[4 * i], s[4 * i + 1], s[4 * i + 2], s[4 * i + 3])
  }

  function BigBytes(w: bv32): (s: seq<bv8>)
    ensures |s| == 4
  {
    [(w >> 24) as bv8, ((w >> 16) & 0xff) as bv8, ((w >> 8) & 0xff) as bv8, (w & 0xff) as bv8]
  }

  /** The words of a block. */
  function Words(s: seq<bv8>): (m: seq<bv32>)
    requires |s| == BLOCK
    ensures |m| == 16
  {
    seq(16, i requires 0 <= i < 16 => BigWord(s, i))
  }

  function Compress(r: Regs, block: seq<bv8>): Regs
    requires |block| == BLOCK
  {
    Add(r, Rounds(r, Words(block), 64))
  }

  /** The hash value after all blocks of s. */
  function Blocks(r: Regs, s: seq<bv8>): Regs
    requires |s| % BLOCK == 0
  {
    if s == [] then r else Compress(Blocks(r, s[..|s| - BLOCK]), s[|s| - BLOCK..])
  }

  // ------------------------------------------------------------------
  // Section 5.1.1.

  /** The low n bytes of a number, the most significant first. */
  function BigNumber(x: nat, n: nat): (s: seq<bv8>)
    ensures |s| == n
  {
    if n == 0 then [] else BigNumber(x / 256, n - 1) + [(x % 256) as bv8]
  }

  /** The zero bytes between the 0x80 byte and the length. */
  function PadZeros(len: nat): (k: nat)
    ensures k < 64 && (len + 1 + k) % 64 == 56
  {
    (55 - len) % 64
  }

  /** No fewer zeros would do. */
  lemma PadZerosLeast(len: nat, k: nat)
    requires (len + 1 + k) % 64 == 56
    ensures PadZeros(len) <= k
  {
    var z := PadZeros(len);
    var i, j := (len + 1 + k) / 64, (len + 1 + z) / 64;
    assert len + 1 + k == 64 * i + 56 && len + 1 + z == 64 * j + 56;
  }

  /** The message, the bit 1, zeros, and the length in bits. */
  function Padded(m: seq<bv8>): (p: seq<bv8>)
    ensures |p| % BLOCK == 0
  {
    var z := PadZeros(|m|);
    FullBlock(|m| + 1 + z);
    var p := m + [0x80] + Wire.Zeros(z) + BigNumber(8 * |m|, 8);
    assert |p| == |m| + 1 + z + 8;
    p
  }

  lemma FullBlock(n: nat)
    requires n % 64 == 56
    ensures (n + 8) % 64 == 0
  {
  }

  function Initial(i: nat): bv32
    requires i < 8
  {
    INITIAL[i] as bv32
  }

  function InitialHash(): Regs {
    Regs(Initial(0), Initial(1), Initial(2), Initial(3), Initial(4), Initial(5), Initial(6), Initial(7))
  }

  function DigestOf(r: Regs): (s: seq<bv8>)
    ensures |s| == DIGEST
  {
    BigBytes(r.a) + BigBytes(r.b) + BigBytes(r.c) + BigBytes(r.d)
    + BigBytes(r.e) + BigBytes(r.f) + BigBytes(r.g) + BigBytes(r.h)
  }

  /** The digest of a message. FIPS 180-4 defines it below 2^64 bits; past
      that, the length field is the low 64 bits. */
  function Sha256(m: seq<bv8>): seq<bv8> {
    DigestOf(Blocks(InitialHash(), Padded(m)))
  }

  // ------------------------------------------------------------------
  // Messages block by block.

  lemma BlocksMore(r: Regs, s: seq<bv8>, block: seq<bv8>)
    requires |s| % BLOCK == 0 && |block| == BLOCK
    ensures Blocks(r, s + block) == Compress(Blocks(r, s), block)
  {
    hide Compress;
    var t := s + block;
    assert t[..|t| - BLOCK] == s && t[|t| - BLOCK..] == block;
  }

  /** The part of a message in whole blocks, and the rest. */
  function Whole(m: seq<bv8>): (s: seq<bv8>)
    ensures |s| % BLOCK == 0
  {
    m[..|m| - |m| % BLOCK]
  }

  function Tail(m: seq<bv8>): (s: seq<bv8>)
    ensures |s| == |m| % BLOCK
  {
    m[|m| - |m| % BLOCK..]
  }

  function OneBlock(tail: seq<bv8>, length: seq<bv8>): (s: seq<bv8>)
    requires |tail| <= 55 && |length| == 8
    ensures |s| == BLOCK
  {
    tail + [0x80] + Wire.Zeros(55 - |tail|) + length
  }

  function EarlyBlock(tail: seq<bv8>): (s: seq<bv8>)
    requires 55 < |tail| < BLOCK
    ensures |s| == BLOCK
  {
    tail + [0x80] + Wire.Zeros(63 - |tail|)
  }

  function LateBlock(length: seq<bv8>): (s: seq<bv8>)
    requires |length| == 8
    ensures |s| == BLOCK
  {
    Wire.Zeros(56) + length
  }

  /** The padding takes one more block, or two when the length does not fit
      behind the tail. */
  lemma LastBlocks(m: seq<bv8>)
    ensures var tail, length, r := Tail(m), BigNumber(8 * |m|, 8), Blocks(InitialHash(), Whole(m));
      Blocks(InitialHash(), Padded(m)) ==
        (if |tail| <= 55 then Compress(r, OneBlock(tail, length))
         else Compress(Compress(r, EarlyBlock(tail)), LateBlock(length)))
  {
    hide Compress, BigNumber, Blocks, Padded, Whole, Tail, OneBlock, EarlyBlock, LateBlock, InitialHash;
    var tail, length, h := Tail(m), BigNumber(8 * |m|, 8), InitialHash();
    if |tail| <= 55 {
      PaddedOnce(m);
      BlocksMore(h, Whole(m), OneBlock(tail, length));
    } else {
      var early, late := EarlyBlock(tail), LateBlock(length);
      PaddedTwice(m);
      BlocksMore(h, Whole(m), early);
      BlocksMore(h, Whole(m) + early, late);
    }
  }

  lemma PaddedOnce(m: seq<bv8>)
    requires |Tail(m)| <= 55
    ensures Padded(m) == Whole(m) + OneBlock(Tail(m), BigNumber(8 * |m|, 8))
  {
    hide BigNumber;
    assert m == Whole(m) + Tail(m);
    assert PadZeros(|m|) == 55 - |Tail(m)|;
  }

  lemma PaddedTwice(m: seq<bv8>)
    requires |Tail(m)| > 55
    ensures Padded(m) == (Whole(m) + EarlyBlock(Tail(m))) + LateBlock(BigNumber(8 * |m|, 8))
  {
    hide BigNumber;
    assert m == Whole(m) + Tail(m);
    assert PadZeros(|m|) == (63 - |Tail(m)|) + 56;
    assert Wire.Zeros(PadZeros(|m|)) == Wire.Zeros(63 - |Tail(m)|) + Wire.Zeros(56);
  }

  /** The length field keeps the low bytes only. */
  lemma {:induction false} LowBytes(x: nat, n: nat)
    ensures BigNumber(x, n) == BigNumber(x % Wire.Pow256(n), n)
  {
    if n > 0 {
      var p := Wire.Pow256(n - 1);
      LowBytes(x / 256, n - 1);
      SplitModulo(x, p);
    }
  }

  lemma SplitModulo(x: nat, p: nat)
    requires p > 0
    ensures (x % (256 * p)) / 256 == (x / 256) % p && (x % (256 * p)) % 256 == x % 256
  {
    var q, y := x / 256, x % 256;
    var u, v := q / p, q % p;
    var z := 256 * v + y;
    assert x == (256 * p) * u + z by { assert q == p * u + v; }
    Remainder(x, 256 * p, u, z);
  }

  lemma Remainder(x: nat, d: nat, u: nat, z: nat)
    requires d > 0 && x == d * u + z && z < d
    ensures x % d == z
  {
    var e := x / d - u;
    assert d * e == z - x % d by { Distribute(d, x / d, u); }
    MultipleBounds(d, e);
  }

  lemma Distribute(d: int, a: int, b: int)
    ensures d * (a - b) == d * a - d * b
  {
  }

  lemma MultipleBounds(d: int, e: int)
    requires d > 0
    ensures e >= 1 ==> d * e >= d
    ensures e <= -1 ==> d * e <= -d
  {
  }

  /** The digest word by word. */
  function RegAt(r: Regs, j: nat): bv32
    requires j < 8
  {
    match j
    case 0 => r.a
    case 1 => r.b
    case 2 => r.c
    case 3 => r.d
    case 4 => r.e
    case 5 => r.f
    case 6 => r.g
    case _ => r.h
  }

  function DigestTo(r: Regs, j: nat): (s: seq<bv8>)
    requires j <= 8
    ensures |s| == 4 * j
  {
    if j == 0 then [] else DigestTo(r, j - 1) + BigBytes(RegAt(r, j - 1))
  }

  lemma WholeDigest(r: Regs)
    ensures DigestTo(r, 8) == DigestOf(r)
  {
    hide BigBytes;
    assert DigestTo(r, 2) == BigBytes(r.a) + BigBytes(r.b);
    assert DigestTo(r, 4) == DigestTo(r, 2) + BigBytes(r.c) + BigBytes(r.d);
    assert DigestTo(r, 6) == DigestTo(r, 4) + BigBytes(r.e) + BigBytes(r.f);
    assert DigestTo(r, 8) == DigestTo(r, 6) + BigBytes(r.g) + BigBytes(r.h);
  }
}
