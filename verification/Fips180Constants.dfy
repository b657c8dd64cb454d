/**
  Where the constants of SHA-256 come from (FIPS 180-4, sections 4.2.2 and
  5.3.3): the first thirty-two bits of the fractional parts of the cube roots of
  the first sixty-four primes, and of the square roots of the first eight.
 */
module Fips180Constants {
  import opened Fips180

  // ---- Primes below 361 ----

  ghost predicate IsPrime(n: nat) {
    n >= 2 && forall d | 2 <= d < n :: n % d != 0
  }

  /** No prime below nineteen divides n, unless it is n. */
  predicate Survives(n: int) {
    && (n == 2 || n % 2 != 0) && (n == 3 || n % 3 != 0) && (n == 5 || n % 5 != 0) && (n == 7 || n % 7 != 0)
    && (n == 11 || n % 11 != 0) && (n == 13 || n % 13 != 0) && (n == 17 || n % 17 != 0)
  }

  lemma Magnitude(q: nat, t: int)
    ensures t >= 1 ==> q * t >= q
    ensures t <= -1 ==> q * t + q <= 0
  {
  }

  lemma Multiple(q: nat, f: nat)
    requires q > 0
    ensures q * f % q == 0
  {
    var d: int := q * f / q;
    assert q * (f - d) == q * f - q * d;
    Magnitude(q, f - d);
  }

  lemma Regroup(q: nat, k: nat, e: nat)
    ensures q * k * e == q * (k * e)
  {
  }

  lemma AtLeast(d: nat, low: nat, e: nat)
    requires e >= low
    ensures d * e >= d * low
  {
    assert d * e == d * low + d * (e - low);
  }

  lemma SmallFactor(m: nat, e: nat)
    requires 2 <= m <= 18 && e >= 2
    ensures !Survives(m * e)
  {
    var q := if m % 2 == 0 then 2 else if m % 3 == 0 then 3 else if m % 5 == 0 then 5 else if m % 7 == 0 then 7 else m;
    assert q == 2 || q == 3 || q == 5 || q == 7 || q == 11 || q == 13 || q == 17;
    var k := m / q;
    Regroup(q, k, e);
    assert k >= 1 && m == q * k;
    AtLeast(m, 2, e);
    Multiple(q, k * e);
  }

  /** Of two factors of a number below 19 squared, one is below nineteen. */
  lemma SurvivorHasNoDivisor(d: nat, e: nat)
    requires d >= 2 && e >= 2 && d * e < 361
    ensures !Survives(d * e)
  {
    hide Survives;
    if d <= 18 {
      SmallFactor(d, e);
    } else {
      AtLeast(e, 19, d);
      assert d * e == e * d;
      SmallFactor(e, d);
    }
  }

  lemma NoDivisor(n: nat, d: nat)
    requires 2 <= d < n < 361 && n % d == 0
    ensures !Survives(n)
  {
    hide Survives;
    var e := n / d;
    assert n == d * e;
    assert d * 0 == 0 && d * 1 == d;
    SurvivorHasNoDivisor(d, e);
  }

  /** Below 361 the seven small primes decide. */
  lemma SurvivorsArePrime(n: nat)
    requires 2 <= n < 361
    ensures IsPrime(n) <==> Survives(n)
  {
    if Survives(n) {
      hide Survives;
      forall d | 2 <= d < n
        ensures n % d != 0
      {
        if n % d == 0 {
          NoDivisor(n, d);
        }
      }
    }
  }

  // ---- The first sixty-four primes ----

  const PRIMES_0: seq<nat> := [2, 3, 5, 7, 11, 13, 17, 19]
  const PRIMES_1: seq<nat> := [23, 29, 31, 37, 41, 43, 47, 53]
  const PRIMES_2: seq<nat> := [59, 61, 67, 71, 73, 79, 83, 89]
  const PRIMES_3: seq<nat> := [97, 101, 103, 107, 109, 113, 127, 131]
  const PRIMES_4: seq<nat> := [137, 139, 149, 151, 157, 163, 167, 173]
  const PRIMES_5: seq<nat> := [179, 181, 191, 193, 197, 199, 211, 223]
  const PRIMES_6: seq<nat> := [227, 229, 233, 239, 241, 251, 257, 263]
  const PRIMES_7: seq<nat> := [269, 271, 277, 281, 283, 293, 307, 311]

  const PRIMES: seq<nat> := PRIMES_0 + PRIMES_1 + PRIMES_2 + PRIMES_3 + PRIMES_4 + PRIMES_5 + PRIMES_6 + PRIMES_7

  /** The primes from `from` up to but not including `to`, in order. */
  ghost predicate ListsPrimes(s: seq<nat>, from: nat, to: nat) {
    && (forall i, j | 0 <= i < j < |s| :: s[i] < s[j])
    && forall n :: n in s <==> from <= n < to && IsPrime(n)
  }

  /** No number from n up to but not including q survives. */
  predicate Gap(n: int, q: int)
    decreases q - n
  {
    n >= q || (!Survives(n) && Gap(n + 1, q))
  }

  predicate IsNext(p: nat, q: nat) {
    p < q && Gap(p + 1, q) && Survives(q)
  }

  /** Entry i is the next survivor after the one before it; p comes before the first. */
  predicate IsLinked(p: nat, s: seq<nat>, i: nat)
    requires i < |s|
  {
    IsNext(if i == 0 then p else s[i - 1], s[i])
  }

  predicate IsChain(p: nat, s: seq<nat>) {
    forall i: nat | i < |s| :: IsLinked(p, s, i)
  }

  lemma EightInARow(p: nat, s: seq<nat>)
    requires |s| == 8 && IsNext(p, s[0]) && IsNext(s[0], s[1]) && IsNext(s[1], s[2]) && IsNext(s[2], s[3])
    requires IsNext(s[3], s[4]) && IsNext(s[4], s[5]) && IsNext(s[5], s[6]) && IsNext(s[6], s[7])
    ensures IsChain(p, s)
  {
    hide IsNext;
  }

  lemma JoinChains(p: nat, s: seq<nat>, t: seq<nat>)
    requires s != [] && IsChain(p, s) && IsChain(s[|s| - 1], t)
    ensures IsChain(p, s + t)
  {
    hide IsNext;
    forall i: nat | i < |s + t|
      ensures IsLinked(p, s + t, i)
    {
      if i < |s| {
        assert IsLinked(p, s, i);
      } else {
        assert IsLinked(s[|s| - 1], t, i - |s|);
      }
    }
  }

  lemma JoinPrimes(s: seq<nat>, t: seq<nat>, from: nat, middle: nat, to: nat)
    requires ListsPrimes(s, from, middle) && ListsPrimes(t, middle, to) && from <= middle <= to
    ensures ListsPrimes(s + t, from, to)
  {
    hide IsPrime;
    forall i, j | 0 <= i < j < |s + t|
      ensures (s + t)[i] < (s + t)[j]
    {
      assert i < |s| ==> s[i] in s;
      assert j >= |s| ==> t[j - |s|] in t;
    }
  }

  lemma {:induction false} NextIsPrime(n: nat, q: nat)
    requires 2 <= n <= q < 361 && Gap(n, q) && Survives(q)
    ensures ListsPrimes([q], n, q + 1)
    decreases q - n
  {
    hide Survives, IsPrime;
    SurvivorsArePrime(n);
    if n < q {
      NextIsPrime(n + 1, q);
    }
  }

  lemma {:induction false} ChainListsPrimes(s: seq<nat>)
    requires s != [] && IsChain(1, s) && s[|s| - 1] < 361
    ensures ListsPrimes(s, 2, s[|s| - 1] + 1) && s[|s| - 1] >= 2
    decreases |s|
  {
    hide Gap, Survives, ListsPrimes;
    var n := |s| - 1;
    if n == 0 {
      assert IsLinked(1, s, 0);
      NextIsPrime(2, s[0]);
      assert s == [s[0]];
    } else {
      assert IsLinked(1, s, n);
      forall i: nat | i < n
        ensures IsLinked(1, s[..n], i)
      {
        assert IsLinked(1, s, i);
      }
      assert s[..n][n - 1] == s[n - 1] && forall i | 0 <= i < n :: s[..n][i] == s[i];
      assert s[..n][n - 1] == s[n - 1] && forall i | 0 <= i < n :: s[..n][i] == s[i];
      ChainListsPrimes(s[..n]);
      NextIsPrime(s[n - 1] + 1, s[n]);
      JoinPrimes(s[..n], [s[n]], 2, s[n - 1] + 1, s[n] + 1);
      assert s == s[..n] + [s[n]];
    }
  }

  // ---- Roots ----

  const TWO64 := TWO32 * TWO32
  const TWO96 := TWO32 * TWO32 * TWO32

  /** x is the cube root of p times 2^32, rounded down. */
  predicate IsCubeRoot(x: nat, p: nat) {
    x * x * x <= p * TWO96 < (x + 1) * (x + 1) * (x + 1)
  }

  predicate IsSquareRoot(x: nat, p: nat) {
    x * x <= p * TWO64 < (x + 1) * (x + 1)
  }

  /** k is the first thirty-two bits of the fractional part of the cube root of p; c is its integer part. */
  ghost predicate IsCubeRootFraction(k: Word, p: nat) {
    exists c: nat :: IsCubeRoot(c * TWO32 + k, p)
  }

  ghost predicate IsSquareRootFraction(k: Word, p: nat) {
    exists c: nat :: IsSquareRoot(c * TWO32 + k, p)
  }

  predicate CubeRootsWith(c: seq<nat>, ks: seq<Word>, ps: seq<nat>) {
    |c| == |ks| == |ps| && forall i | 0 <= i < |ks| :: IsCubeRoot(c[i] * TWO32 + ks[i], ps[i])
  }

  ghost predicate CubeRoots(ks: seq<Word>, ps: seq<nat>) {
    |ks| == |ps| && forall i | 0 <= i < |ks| :: IsCubeRootFraction(ks[i], ps[i])
  }

  lemma CubeRootsOf(c: seq<nat>, ks: seq<Word>, ps: seq<nat>)
    requires CubeRootsWith(c, ks, ps)
    ensures CubeRoots(ks, ps)
  {
    hide IsCubeRoot;
  }

  lemma JoinCubeRoots(ks: seq<Word>, ps: seq<nat>, ls: seq<Word>, qs: seq<nat>)
    requires CubeRoots(ks, ps) && CubeRoots(ls, qs)
    ensures CubeRoots(ks + ls, ps + qs)
  {
    hide IsCubeRootFraction;
  }

  lemma NextPrimes0()
    ensures IsNext(1, 2) && IsNext(2, 3) && IsNext(3, 5) && IsNext(5, 7)
    ensures IsNext(7, 11) && IsNext(11, 13) && IsNext(13, 17) && IsNext(17, 19)
  {
  }

  lemma PrimesRow0()
    ensures IsChain(1, PRIMES_0)
  {
    hide IsNext;
    NextPrimes0();
    EightInARow(1, PRIMES_0);
  }

  lemma CubeRootsRow0()
    ensures CubeRoots(K_0, PRIMES_0)
  {
    assert CubeRootsWith([1, 1, 1, 1, 2, 2, 2, 2], K_0, PRIMES_0);
    hide CubeRootsWith;
    CubeRootsOf([1, 1, 1, 1, 2, 2, 2, 2], K_0, PRIMES_0);
  }

  lemma NextPrimes1()
    ensures IsNext(19, 23) && IsNext(23, 29) && IsNext(29, 31) && IsNext(31, 37)
    ensures IsNext(37, 41) && IsNext(41, 43) && IsNext(43, 47) && IsNext(47, 53)
  {
  }

  lemma PrimesRow1()
    ensures IsChain(19, PRIMES_1)
  {
    hide IsNext;
    NextPrimes1();
    EightInARow(19, PRIMES_1);
  }

  lemma CubeRootsRow1()
    ensures CubeRoots(K_1, PRIMES_1)
  {
    assert CubeRootsWith([2, 3, 3, 3, 3, 3, 3, 3], K_1, PRIMES_1);
    hide CubeRootsWith;
    CubeRootsOf([2, 3, 3, 3, 3, 3, 3, 3], K_1, PRIMES_1);
  }

  lemma NextPrimes2()
    ensures IsNext(53, 59) && IsNext(59, 61) && IsNext(61, 67) && IsNext(67, 71)
    ensures IsNext(71, 73) && IsNext(73, 79) && IsNext(79, 83) && IsNext(83, 89)
  {
  }

  lemma PrimesRow2()
    ensures IsChain(53, PRIMES_2)
  {
    hide IsNext;
    NextPrimes2();
    EightInARow(53, PRIMES_2);
  }

  lemma CubeRootsRow2()
    ensures CubeRoots(K_2, PRIMES_2)
  {
    assert CubeRootsWith([3, 3, 4, 4, 4, 4, 4, 4], K_2, PRIMES_2);
    hide CubeRootsWith;
    CubeRootsOf([3, 3, 4, 4, 4, 4, 4, 4], K_2, PRIMES_2);
  }

  lemma NextPrimes3()
    ensures IsNext(89, 97) && IsNext(97, 101) && IsNext(101, 103) && IsNext(103, 107)
    ensures IsNext(107, 109) && IsNext(109, 113) && IsNext(113, 127) && IsNext(127, 131)
  {
  }

  lemma PrimesRow3()
    ensures IsChain(89, PRIMES_3)
  {
    hide IsNext;
    NextPrimes3();
    EightInARow(89, PRIMES_3);
  }

  lemma CubeRootsRow3()
    ensures CubeRoots(K_3, PRIMES_3)
  {
    assert CubeRootsWith([4, 4, 4, 4, 4, 4, 5, 5], K_3, PRIMES_3);
    hide CubeRootsWith;
    CubeRootsOf([4, 4, 4, 4, 4, 4, 5, 5], K_3, PRIMES_3);
  }

  lemma NextPrimes4()
    ensures IsNext(131, 137) && IsNext(137, 139) && IsNext(139, 149) && IsNext(149, 151)
    ensures IsNext(151, 157) && IsNext(157, 163) && IsNext(163, 167) && IsNext(167, 173)
  {
  }

  lemma PrimesRow4()
    ensures IsChain(131, PRIMES_4)
  {
    hide IsNext;
    NextPrimes4();
    EightInARow(131, PRIMES_4);
  }

  lemma CubeRootsRow4()
    ensures CubeRoots(K_4, PRIMES_4)
  {
    assert CubeRootsWith([5, 5, 5, 5, 5, 5, 5, 5], K_4, PRIMES_4);
    hide CubeRootsWith;
    CubeRootsOf([5, 5, 5, 5, 5, 5, 5, 5], K_4, PRIMES_4);
  }

  lemma NextPrimes5()
    ensures IsNext(173, 179) && IsNext(179, 181) && IsNext(181, 191) && IsNext(191, 193)
    ensures IsNext(193, 197) && IsNext(197, 199) && IsNext(199, 211) && IsNext(211, 223)
  {
  }

  lemma PrimesRow5()
    ensures IsChain(173, PRIMES_5)
  {
    hide IsNext;
    NextPrimes5();
    EightInARow(173, PRIMES_5);
  }

  lemma CubeRootsRow5()
    ensures CubeRoots(K_5, PRIMES_5)
  {
    assert CubeRootsWith([5, 5, 5, 5, 5, 5, 5, 6], K_5, PRIMES_5);
    hide CubeRootsWith;
    CubeRootsOf([5, 5, 5, 5, 5, 5, 5, 6], K_5, PRIMES_5);
  }

  lemma NextPrimes6()
    ensures IsNext(223, 227) && IsNext(227, 229) && IsNext(229, 233) && IsNext(233, 239)
    ensures IsNext(239, 241) && IsNext(241, 251) && IsNext(251, 257) && IsNext(257, 263)
  {
  }

  lemma PrimesRow6()
    ensures IsChain(223, PRIMES_6)
  {
    hide IsNext;
    NextPrimes6();
    EightInARow(223, PRIMES_6);
  }

  lemma CubeRootsRow6()
    ensures CubeRoots(K_6, PRIMES_6)
  {
    assert CubeRootsWith([6, 6, 6, 6, 6, 6, 6, 6], K_6, PRIMES_6);
    hide CubeRootsWith;
    CubeRootsOf([6, 6, 6, 6, 6, 6, 6, 6], K_6, PRIMES_6);
  }

  lemma NextPrimes7()
    ensures IsNext(263, 269) && IsNext(269, 271) && IsNext(271, 277) && IsNext(277, 281)
    ensures IsNext(281, 283) && IsNext(283, 293) && IsNext(293, 307) && IsNext(307, 311)
  {
  }

  lemma PrimesRow7()
    ensures IsChain(263, PRIMES_7)
  {
    hide IsNext;
    NextPrimes7();
    EightInARow(263, PRIMES_7);
  }

  lemma CubeRootsRow7()
    ensures CubeRoots(K_7, PRIMES_7)
  {
    assert CubeRootsWith([6, 6, 6, 6, 6, 6, 6, 6], K_7, PRIMES_7);
    hide CubeRootsWith;
    CubeRootsOf([6, 6, 6, 6, 6, 6, 6, 6], K_7, PRIMES_7);
  }

  // ---- The constants ----

  /** The sixty-four listed numbers are the primes below 312. */
  lemma FirstPrimes()
    ensures |PRIMES| == 64 && ListsPrimes(PRIMES, 2, 312)
  {
    PrimesRow0();
    PrimesRow1();
    PrimesRow2();
    PrimesRow3();
    PrimesRow4();
    PrimesRow5();
    PrimesRow6();
    PrimesRow7();
    hide IsChain, ListsPrimes;
    JoinChains(1, PRIMES_0, PRIMES_1);
    JoinChains(1, PRIMES_0 + PRIMES_1, PRIMES_2);
    JoinChains(1, PRIMES_0 + PRIMES_1 + PRIMES_2, PRIMES_3);
    JoinChains(1, PRIMES_0 + PRIMES_1 + PRIMES_2 + PRIMES_3, PRIMES_4);
    JoinChains(1, PRIMES_0 + PRIMES_1 + PRIMES_2 + PRIMES_3 + PRIMES_4, PRIMES_5);
    JoinChains(1, PRIMES_0 + PRIMES_1 + PRIMES_2 + PRIMES_3 + PRIMES_4 + PRIMES_5, PRIMES_6);
    JoinChains(1, PRIMES_0 + PRIMES_1 + PRIMES_2 + PRIMES_3 + PRIMES_4 + PRIMES_5 + PRIMES_6, PRIMES_7);
    ChainListsPrimes(PRIMES);
  }

  /** Section 4.2.2: the round constants come from the cube roots of the first sixty-four primes. */
  lemma RoundConstants()
    ensures |K| == |PRIMES| == 64 && ListsPrimes(PRIMES, 2, 312)
    ensures forall i | 0 <= i < 64 :: IsCubeRootFraction(K[i], PRIMES[i])
  {
    FirstPrimes();
    CubeRootsRow0();
    CubeRootsRow1();
    CubeRootsRow2();
    CubeRootsRow3();
    CubeRootsRow4();
    CubeRootsRow5();
    CubeRootsRow6();
    CubeRootsRow7();
    hide CubeRoots, ListsPrimes;
    var ks, ps := K_0 + K_1, PRIMES_0 + PRIMES_1;
    JoinCubeRoots(K_0, PRIMES_0, K_1, PRIMES_1);
    JoinCubeRoots(ks, ps, K_2, PRIMES_2);
    JoinCubeRoots(ks + K_2, ps + PRIMES_2, K_3, PRIMES_3);
    ks, ps := ks + K_2 + K_3, ps + PRIMES_2 + PRIMES_3;
    JoinCubeRoots(ks, ps, K_4, PRIMES_4);
    JoinCubeRoots(ks + K_4, ps + PRIMES_4, K_5, PRIMES_5);
    ks, ps := ks + K_4 + K_5, ps + PRIMES_4 + PRIMES_5;
    JoinCubeRoots(ks, ps, K_6, PRIMES_6);
    JoinCubeRoots(ks + K_6, ps + PRIMES_6, K_7, PRIMES_7);
    CubeRootsAt(K, PRIMES);
  }

  lemma CubeRootsAt(ks: seq<Word>, ps: seq<nat>)
    requires CubeRoots(ks, ps)
    ensures |ks| == |ps| && forall i | 0 <= i < |ks| :: IsCubeRootFraction(ks[i], ps[i])
  {
    hide IsCubeRootFraction;
  }

  predicate SquareRootsWith(c: seq<nat>, ks: seq<Word>, ps: seq<nat>) {
    |c| == |ks| == |ps| && forall i | 0 <= i < |ks| :: IsSquareRoot(c[i] * TWO32 + ks[i], ps[i])
  }

  lemma SquareRootsOf(c: seq<nat>, ks: seq<Word>, ps: seq<nat>)
    requires SquareRootsWith(c, ks, ps)
    ensures forall i | 0 <= i < |ks| :: IsSquareRootFraction(ks[i], ps[i])
  {
    hide IsSquareRoot;
  }

  function Words(h: Hash): seq<Word> {
    [h.a, h.b, h.c, h.d, h.e, h.f, h.g, h.h]
  }

  /** Section 5.3.3: the initial hash value comes from the square roots of the first eight. */
  lemma InitialHash()
    ensures forall i | 0 <= i < 8 :: IsSquareRootFraction(Words(INITIAL)[i], PRIMES[i])
  {
    assert SquareRootsWith([1, 1, 2, 2, 3, 3, 4, 4], Words(INITIAL), PRIMES_0);
    hide SquareRootsWith, IsSquareRootFraction;
    SquareRootsOf([1, 1, 2, 2, 3, 3, 4, 4], Words(INITIAL), PRIMES_0);
    assert forall i | 0 <= i < 8 :: PRIMES[i] == PRIMES_0[i];
  }

  lemma SmallerCube(x: nat, y: nat)
    requires x < y
    ensures (x + 1) * (x + 1) * (x + 1) <= y * y * y
  {
    var z := x + 1;
    AtLeast(y, z, y);
    AtLeast(z, z, y);
    assert y * z == z * y;
    AtLeast(y * y, z, y);
    AtLeast(z, z * z, y * y);
    assert y * y * z == z * (y * y) && z * (z * z) == z * z * z;
  }

  lemma RootsAreUnique(x: nat, y: nat, p: nat)
    requires IsCubeRoot(x, p) && IsCubeRoot(y, p)
    ensures x == y
  {
    if x < y {
      SmallerCube(x, y);
      assert false;
    }
    if y < x {
      SmallerCube(y, x);
      assert false;
    }
  }

  /** A prime determines its constant, and so the whole table is determined. */
  lemma FractionsAreUnique(k: Word, l: Word, p: nat)
    requires IsCubeRootFraction(k, p) && IsCubeRootFraction(l, p)
    ensures k == l
  {
    hide IsCubeRoot;
    var c: nat :| IsCubeRoot(c * TWO32 + k, p);
    var d: nat :| IsCubeRoot(d * TWO32 + l, p);
    RootsAreUnique(c * TWO32 + k, d * TWO32 + l, p);
  }
}
