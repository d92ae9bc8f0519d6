/** Bytes and the little-endian unsigned fields that every on-wire and
    on-disk layout of the repository is made of. */
module Wire {

  type byte = b: nat | b < 256

  type bytes = seq<byte>

  const TWO16: nat := 0x1_0000
  const TWO31: nat := 0x8000_0000
  const TWO32: nat := 0x1_0000_0000

  /** 256 to the power k, by doubling the exponent's digits one at a time. */
  function Pow256(k: nat): (r: nat)
    ensures r > 0
  {
    if k == 0 then 1 else 256 * Pow256(k - 1)
  }

  /** The k low-order bytes of n, least significant first (what memcpy of a
      k-byte unsigned integer writes on a little-endian machine). */
  function Put(k: nat, n: nat): (r: bytes)
    ensures |r| == k
  {
    if k == 0 then [] else [n % 256] + Put(k - 1, n / 256)
  }

  /** The value of a little-endian byte string. */
  function Get(s: bytes): (n: nat)
    ensures n < Pow256(|s|)
  {
    if s == [] then 0 else s[0] + 256 * Get(s[1..])
  }

  lemma {:induction false} GetPut(k: nat, n: nat)
    requires n < Pow256(k)
    ensures Get(Put(k, n)) == n
  {
    if k > 0 {
      GetPut(k - 1, n / 256);
      assert Put(k, n)[1..] == Put(k - 1, n / 256);
    }
  }

  lemma ModStep(n: nat, m: nat)
    requires m > 0
    ensures (n + 1) % m == if n % m + 1 == m then 0 else n % m + 1
  {
    var q, r := n / m, n % m;
    assert n == m * q + r;
    if r + 1 == m {
      assert n + 1 == m * (q + 1);
      ModIs(n + 1, m, q + 1, 0);
    } else {
      ModIs(n + 1, m, q, r + 1);
    }
  }

  lemma ModIs(n: nat, m: nat, q: nat, r: nat)
    requires r < m && n == m * q + r
    ensures n % m == r
  {
    var d := q - n / m;
    assert n == m * (n / m) + n % m;
    assert m * d == n % m - r;
    assert d > 0 ==> m * d >= m;
    assert d < 0 ==> m * d <= 0 - m;
    assert d == 0;
  }

  lemma Pow256Values()
    ensures Pow256(2) == TWO16 && Pow256(4) == TWO32
  {
    assert Pow256(1) == 256;
    assert Pow256(2) == 256 * 256;
    assert Pow256(3) == 256 * 256 * 256;
  }

  lemma GetPut32(n: nat)
    requires n < TWO32
    ensures Get(Put(4, n)) == n
  {
    Pow256Values();
    GetPut(4, n);
  }

  lemma GetPut16(n: nat)
    requires n < TWO16
    ensures Get(Put(2, n)) == n
  {
    Pow256Values();
    GetPut(2, n);
  }

  /** The 4-byte number at an offset. */
  function Field(s: bytes, at: nat): nat
    requires at + 4 <= |s|
  {
    Get(s[at..at + 4])
  }

  lemma SliceOfSlice<T>(s: seq<T>, at: nat, n: nat, i: nat, j: nat)
    requires at + n <= |s| && i <= j <= n
    ensures s[at..at + n][i..j] == s[at + i..at + j]
  {
    var w, l, r := s[at..at + n], s[at..at + n][i..j], s[at + i..at + j];
    assert |l| == |r|;
    forall k | 0 <= k < |l| ensures l[k] == r[k] {
      assert l[k] == w[i + k] == s[at + (i + k)];
      assert r[k] == s[at + i + k];
    }
  }

  lemma FieldOf(a: bytes, n: nat, b: bytes)
    requires n < TWO32
    ensures Field(a + Put(4, n) + b, |a|) == n
  {
    hide Put, Get;
    GetPut32(n);
    assert (a + Put(4, n) + b)[|a|..|a| + 4] == Put(4, n);
  }

  /** Four numbers in a row. */
  lemma FourFields(s: bytes, at: nat, q: nat, e: nat, z: nat, c: nat)
    requires q < TWO32 && e < TWO32 && z < TWO32 && c < TWO32
    requires at + 16 <= |s| && s[at..at + 16] == Put(4, q) + Put(4, e) + Put(4, z) + Put(4, c)
    ensures Field(s, at) == q && Field(s, at + 4) == e && Field(s, at + 8) == z && Field(s, at + 12) == c
  {
    hide Put, Get;
    FourSlices(s, at, Put(4, q), Put(4, e), Put(4, z), Put(4, c));
    GetPut32(q);
    GetPut32(e);
    GetPut32(z);
    GetPut32(c);
  }

  lemma FourSlices(s: bytes, at: nat, a: bytes, b: bytes, c: bytes, d: bytes)
    requires |a| == |b| == |c| == |d| == 4
    requires at + 16 <= |s| && s[at..at + 16] == a + b + c + d
    ensures s[at..at + 4] == a && s[at + 4..at + 8] == b && s[at + 8..at + 12] == c && s[at + 12..at + 16] == d
  {
    var w := s[at..at + 16];
    assert w[0..4] == a;
    assert w[4..8] == b;
    assert w[8..12] == c;
    assert w[12..16] == d;
    SliceOfSlice(s, at, 16, 0, 4);
    SliceOfSlice(s, at, 16, 4, 8);
    SliceOfSlice(s, at, 16, 8, 12);
    SliceOfSlice(s, at, 16, 12, 16);
  }

  /** What memset writes. */
  function Zeros(n: nat): (s: seq<bv8>)
    ensures |s| == n
  {
    seq(n, _ => 0)
  }
}
