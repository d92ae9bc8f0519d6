/** The numbers behind the constants of SHA-256 are the first 64 primes. */
module Sha256Primes {
  import opened Sha256Spec

  predicate Divides(d: nat, n: nat)
    requires d > 0
  {
    d < n && n % d == 0
  }

  predicate IsPrime(n: nat) {
    n >= 2 && forall d :: 2 <= d < n ==> !Divides(d, n)
  }

  // ------------------------------------------------------------------
  // Below 18 * 18 trying seven primes is enough.

  predicate Sifted(n: nat) {
    !(Divides(2, n) || Divides(3, n) || Divides(5, n) || Divides(7, n) || Divides(11, n) || Divides(13, n) || Divides(17, n))
  }

  lemma Subtract(c: int, m: int, q: int, r: int)
    requires c * m == c * q + r
    ensures r == c * (m - q)
  {
  }

  lemma TimesGrows(c: int, z: int)
    requires c >= 0
    ensures z >= 1 ==> c * z >= c
    ensures z <= -1 ==> c * z <= -c
  {
  }

  lemma SmallMultiple(c: int, z: int, r: int)
    requires 0 <= r < c && r == c * z
    ensures r == 0
  {
    TimesGrows(c, z);
    if z == 0 {
      assert c * z == 0;
    }
  }

  lemma NothingRemains(c: nat, m: nat)
    requires c > 0
    ensures (c * m) % c == 0
  {
    var q, r := (c * m) / c, (c * m) % c;
    Subtract(c, m, q, r);
    SmallMultiple(c, m - q, r);
  }

  lemma MultipleFalls(n: nat, c: nat, m: nat)
    requires c in {2, 3, 5, 7, 11, 13, 17} && c < n && n == c * m
    ensures !Sifted(n)
  {
    hide Divides;
    NothingRemains(c, m);
    assert Divides(c, n) by { DividesIt(c, n); }
  }

  lemma DividesIt(c: nat, n: nat)
    requires 0 < c < n && n % c == 0
    ensures Divides(c, n)
  {
  }

  lemma Factor(e: nat, c: nat, k: nat)
    requires c > 0 && e % c == 0
    ensures e * k == c * ((e / c) * k)
  {
    assert e == c * (e / c);
  }

  /** A divisor below 18 is a multiple of one of the seven primes. */
  lemma SmallDivisor(n: nat, e: nat, k: nat)
    requires 2 <= e < 18 && e < n && n == e * k
    ensures !Sifted(n)
  {
    hide Sifted;
    var c := if e % 2 == 0 then 2 else if e % 3 == 0 then 3 else e;
    Factor(e, c, k);
    MultipleFalls(n, c, (e / c) * k);
  }

  lemma OneIsSmall(n: nat, d: nat, q: nat)
    requires n == d * q && n < 324 && d >= 18
    ensures q < 18
  {
    TimesGrowsBoth(d, q);
  }

  lemma TimesGrowsBoth(d: nat, q: nat)
    requires d >= 18
    ensures d * q >= 18 * q
  {
  }

  lemma Cofactor(n: nat, d: nat, q: nat)
    requires 2 <= d < n && n % d == 0 && q == n / d
    ensures n == d * q && 1 < q < n
  {
    assert n == d * q;
  }

  lemma DivisorFalls(n: nat, d: nat)
    requires n < 324 && 2 <= d < n && n % d == 0
    ensures !Sifted(n)
  {
    hide Sifted;
    var q := n / d;
    Cofactor(n, d, q);
    if d < 18 {
      SmallDivisor(n, d, q);
    } else {
      OneIsSmall(n, d, q);
      SmallDivisor(n, q, d);
    }
  }

  lemma SiftedIsPrime(n: nat)
    requires 2 <= n < 324
    ensures Sifted(n) <==> IsPrime(n)
  {
    if Sifted(n) {
      forall d | 2 <= d < n ensures !Divides(d, n) {
        if n % d == 0 {
          DivisorFalls(n, d);
        }
      }
    }
  }

  // ------------------------------------------------------------------
  // The rows.

  /** No number from a up to b is sifted. */
  predicate Gap(a: nat, b: nat)
    decreases b - a
  {
    a >= b || (!Sifted(a) && Gap(a + 1, b))
  }

  /** The sifted numbers after n, up to the last of them. */
  predicate PrimeRow(n: nat, ps: seq<nat>)
    decreases |ps|
  {
    ps == [] || (n < ps[0] && Sifted(ps[0]) && Gap(n + 1, ps[0]) && PrimeRow(ps[0], ps[1..]))
  }

  lemma Gaps0()
    ensures Gap(2, 2) && Gap(3, 3) && Gap(4, 5) && Gap(6, 7)
    ensures Gap(8, 11) && Gap(12, 13) && Gap(14, 17) && Gap(18, 19)
  {
  }

  lemma PrimeRow0()
    ensures PrimeRow(1, P0)
  {
    hide Gap;
    Gaps0();
  }

  lemma Gaps1()
    ensures Gap(20, 23) && Gap(24, 29) && Gap(30, 31) && Gap(32, 37)
    ensures Gap(38, 41) && Gap(42, 43) && Gap(44, 47) && Gap(48, 53)
  {
  }

  lemma PrimeRow1()
    ensures PrimeRow(19, P1)
  {
    hide Gap;
    Gaps1();
  }

  lemma Gaps2()
    ensures Gap(54, 59) && Gap(60, 61) && Gap(62, 67) && Gap(68, 71)
    ensures Gap(72, 73) && Gap(74, 79) && Gap(80, 83) && Gap(84, 89)
  {
  }

  lemma PrimeRow2()
    ensures PrimeRow(53, P2)
  {
    hide Gap;
    Gaps2();
  }

  lemma Gaps3()
    ensures Gap(90, 97) && Gap(98, 101) && Gap(102, 103) && Gap(104, 107)
    ensures Gap(108, 109) && Gap(110, 113) && Gap(114, 127) && Gap(128, 131)
  {
  }

  lemma PrimeRow3()
    ensures PrimeRow(89, P3)
  {
    hide Gap;
    Gaps3();
  }

  lemma Gaps4()
    ensures Gap(132, 137) && Gap(138, 139) && Gap(140, 149) && Gap(150, 151)
    ensures Gap(152, 157) && Gap(158, 163) && Gap(164, 167) && Gap(168, 173)
  {
  }

  lemma PrimeRow4()
    ensures PrimeRow(131, P4)
  {
    hide Gap;
    Gaps4();
  }

  lemma Gaps5()
    ensures Gap(174, 179) && Gap(180, 181) && Gap(182, 191) && Gap(192, 193)
    ensures Gap(194, 197) && Gap(198, 199) && Gap(200, 211) && Gap(212, 223)
  {
  }

  lemma PrimeRow5()
    ensures PrimeRow(173, P5)
  {
    hide Gap;
    Gaps5();
  }

  lemma Gaps6()
    ensures Gap(224, 227) && Gap(228, 229) && Gap(230, 233) && Gap(234, 239)
    ensures Gap(240, 241) && Gap(242, 251) && Gap(252, 257) && Gap(258, 263)
  {
  }

  lemma PrimeRow6()
    ensures PrimeRow(223, P6)
  {
    hide Gap;
    Gaps6();
  }

  lemma Gaps7()
    ensures Gap(264, 269) && Gap(270, 271) && Gap(272, 277) && Gap(278, 281)
    ensures Gap(282, 283) && Gap(284, 293) && Gap(294, 307) && Gap(308, 311)
  {
  }

  lemma PrimeRow7()
    ensures PrimeRow(263, P7)
  {
    hide Gap;
    Gaps7();
  }

  lemma {:induction false} GapMeans(a: nat, b: nat, n: nat)
    requires Gap(a, b) && a <= n < b
    ensures !Sifted(n)
    decreases b - a
  {
    if a < n {
      GapMeans(a + 1, b, n);
    }
  }

  lemma {:induction false} RowMeans(m: nat, ps: seq<nat>, n: nat)
    requires PrimeRow(m, ps) && ps != [] && m < n <= ps[|ps| - 1]
    ensures Sifted(n) <==> n in ps
    decreases |ps|
  {
    hide Sifted, Gap;
    if n < ps[0] {
      GapMeans(m + 1, ps[0], n);
      RowAscends(m, ps);
    } else if n > ps[0] {
      RowMeans(ps[0], ps[1..], n);
    }
  }

  lemma {:induction false} RowAscends(m: nat, ps: seq<nat>)
    requires PrimeRow(m, ps)
    ensures forall i :: 0 <= i < |ps| ==> m < ps[i]
    ensures forall i, j :: 0 <= i < j < |ps| ==> ps[i] < ps[j]
    decreases |ps|
  {
    hide Sifted, Gap;
    if ps != [] {
      RowAscends(ps[0], ps[1..]);
    }
  }

  lemma {:induction false} RowsFollow(m: nat, ps: seq<nat>, qs: seq<nat>)
    requires PrimeRow(m, ps) && ps != [] && PrimeRow(ps[|ps| - 1], qs)
    ensures PrimeRow(m, ps + qs)
    decreases |ps|
  {
    hide Sifted, Gap;
    assert (ps + qs)[1..] == ps[1..] + qs;
    if |ps| > 1 {
      RowsFollow(ps[0], ps[1..], qs);
    } else {
      assert ps[1..] + qs == qs;
    }
  }

  lemma AllRows()
    ensures PrimeRow(1, PRIMES)
  {
    hide PrimeRow;
    PrimeRow0();
    PrimeRow1();
    PrimeRow2();
    PrimeRow3();
    PrimeRow4();
    PrimeRow5();
    PrimeRow6();
    PrimeRow7();
    RowsFollow(1, P0, P1);
    RowsFollow(1, P0 + P1, P2);
    RowsFollow(1, P0 + P1 + P2, P3);
    RowsFollow(1, P0 + P1 + P2 + P3, P4);
    RowsFollow(1, P0 + P1 + P2 + P3 + P4, P5);
    RowsFollow(1, P0 + P1 + P2 + P3 + P4 + P5, P6);
    RowsFollow(1, P0 + P1 + P2 + P3 + P4 + P5 + P6, P7);
  }

  /** PRIMES lists the first 64 primes, in order: 311 is the last of them, and
      no prime up to there is missing. */
  lemma FirstPrimes(n: nat)
    ensures |PRIMES| == 64 && PRIMES[63] == 311
    ensures forall i, j :: 0 <= i < j < 64 ==> PRIMES[i] < PRIMES[j]
    ensures n in PRIMES <==> IsPrime(n) && n <= 311
  {
    hide Sifted, IsPrime, PrimeRow;
    AllRows();
    RowAscends(1, PRIMES);
    assert PRIMES[63] == 311;
    forall i | 0 <= i < 64 ensures 2 <= PRIMES[i] <= 311 {
      assert i < 63 ==> PRIMES[i] < PRIMES[63];
    }
    if 2 <= n <= 311 {
      RowMeans(1, PRIMES, n);
      SiftedIsPrime(n);
    } else {
      NotPrime(n);
    }
  }

  lemma NotPrime(n: nat)
    ensures n < 2 ==> !IsPrime(n)
  {
  }
}
