/**
 Where the constants of SHA-256 come from: the first 32 bits of the fractional parts of the cube roots of the first
 64 primes (section 4.2.2 of FIPS 180-4), and of the square roots of the first eight (section 5.3.3).
 */
module Sha256Constants {
  import opened Int32
  import opened Sha256Spec

  // ------------------------------------------------------------- the first 64 primes

  const PRIMES: seq<nat> := P0 + P1 + P2 + P3 + P4 + P5 + P6 + P7

  type Eight = p: seq<nat> | |p| == 8 witness seq(8, _ => 0)

  const P0: Eight := [2, 3, 5, 7, 11, 13, 17, 19]
  const P1: Eight := [23, 29, 31, 37, 41, 43, 47, 53]
  const P2: Eight := [59, 61, 67, 71, 73, 79, 83, 89]
  const P3: Eight := [97, 101, 103, 107, 109, 113, 127, 131]
  const P4: Eight := [137, 139, 149, 151, 157, 163, 167, 173]
  const P5: Eight := [179, 181, 191, 193, 197, 199, 211, 223]
  const P6: Eight := [227, 229, 233, 239, 241, 251, 257, 263]
  const P7: Eight := [269, 271, 277, 281, 283, 293, 307, 311]

  predicate Factors(n: nat, a: nat, b: nat) {
    a * b == n
  }

  ghost predicate IsPrime(n: nat) {
    n >= 2 && forall a: nat, b: nat :: Factors(n, a, b) ==> a == 1 || b == 1
  }

  /** The least prime factor below 18, if there is one. */
  function LeastFactor(n: nat): nat {
    if n % 2 == 0 then 2
    else if n % 3 == 0 then 3
    else if n % 5 == 0 then 5
    else if n % 7 == 0 then 7
    else if n % 11 == 0 then 11
    else if n % 13 == 0 then 13
    else if n % 17 == 0 then 17
    else n
  }

  lemma MultiplesOfSmall(m: nat)
    ensures 2 * m % 2 == 0 && 3 * m % 3 == 0 && 5 * m % 5 == 0 && 7 * m % 7 == 0
    ensures 11 * m % 11 == 0 && 13 * m % 13 == 0 && 17 * m % 17 == 0
  {
  }

  lemma DivisorShows(n: nat, p: nat)
    requires p in {2, 3, 5, 7, 11, 13, 17}
    requires match p
             case 2 => n % 2 == 0
             case 3 => n % 3 == 0
             case 5 => n % 5 == 0
             case 7 => n % 7 == 0
             case 11 => n % 11 == 0
             case 13 => n % 13 == 0
             case _ => n % 17 == 0
    ensures LeastFactor(n) <= p
  {
  }

  lemma MultipleShows(n: nat, p: nat, m: nat)
    requires p in {2, 3, 5, 7, 11, 13, 17} && n == p * m
    ensures LeastFactor(n) <= p
  {
    hide LeastFactor;
    MultiplesOfSmall(m);
    match p {
      case 2 => assert n == 2 * m;
      case 3 => assert n == 3 * m;
      case 5 => assert n == 5 * m;
      case 7 => assert n == 7 * m;
      case 11 => assert n == 11 * m;
      case 13 => assert n == 13 * m;
      case _ => assert n == 17 * m;
    }
    DivisorShows(n, p);
  }

  /** A factor up to 18 shows in the least factor. */
  lemma SmallFactor(n: nat, a: nat, b: nat)
    requires 2 <= a <= 18 && Factors(n, a, b)
    ensures LeastFactor(n) <= a
  {
    hide LeastFactor;
    if a in {5, 7, 11, 13, 17} {
      MultipleShows(n, a, b);
    } else {
      var p := if a % 2 == 0 then 2 else 3;
      Regroup(a, p, b);
      MultipleShows(n, p, a / p * b);
    }
  }

  lemma Regroup(a: nat, p: nat, b: nat)
    requires p in {2, 3} && a % p == 0
    ensures a * b == p * (a / p * b)
  {
    assert a == p * (a / p);
  }

  lemma Grows(a: nat, b: nat)
    requires a >= 19 && b >= 19
    ensures a * b >= 361
  {
    assert a * b >= 19 * b by { assert (a - 19) * b >= 0; }
  }

  lemma PrimeIff(n: nat)
    requires 2 <= n < 361
    ensures IsPrime(n) <==> LeastFactor(n) == n
  {
    if LeastFactor(n) == n {
      forall a: nat, b: nat | Factors(n, a, b) ensures a == 1 || b == 1 {
        NoFactors(n, a, b);
      }
    } else {
      var p := LeastFactor(n);
      assert Factors(n, p, n / p);
    }
  }

  lemma NoFactors(n: nat, a: nat, b: nat)
    requires 2 <= n < 361 && LeastFactor(n) == n && Factors(n, a, b)
    ensures a == 1 || b == 1
  {
    if a >= 19 && b >= 19 {
      Grows(a, b);
    } else if 2 <= a && 2 <= b {
      Ordered(n, a, b);
      if a <= 18 {
        SmallFactor(n, a, b);
      } else {
        assert Factors(n, b, a);
        SmallFactor(n, b, a);
      }
    }
  }

  lemma Ordered(n: nat, a: nat, b: nat)
    requires Factors(n, a, b) && a >= 2 && b >= 2
    ensures a < n && b < n
  {
    assert a * b >= 2 * b by { assert (a - 2) * b >= 0; }
    assert a * b >= a * 2 by { assert a * (b - 2) >= 0; }
  }

  /** No number from lo up to hi - 1 is prime. */
  predicate AllComposite(lo: nat, hi: nat)
    decreases hi - lo
  {
    lo >= hi || (LeastFactor(lo) < lo && AllComposite(lo + 1, hi))
  }

  /** q is the next one after p whose least factor is itself. */
  predicate Next(p: nat, q: nat) {
    p < q && LeastFactor(q) == q && AllComposite(p + 1, q)
  }

  lemma {:induction false} NoneBetween(lo: nat, hi: nat, n: nat)
    requires AllComposite(lo, hi) && lo <= n < hi
    ensures LeastFactor(n) < n
    decreases hi - lo
  {
    hide LeastFactor;
    if n > lo { NoneBetween(lo + 1, hi, n); }
  }

  lemma NextInRow0(t: nat)
    requires t < 8
    ensures Next(PRIMES[t], PRIMES[t + 1])
  {
    assert Next(2, 3) && Next(3, 5) && Next(5, 7) && Next(7, 11);
    assert Next(11, 13) && Next(13, 17) && Next(17, 19) && Next(19, 23);
    hide Next;
    assert PRIMES[t] == P0[t];
    assert PRIMES[t + 1] == if t < 7 then P0[t + 1] else P1[0];
  }

  lemma NextInRow1(t: nat)
    requires t < 8
    ensures Next(PRIMES[8 + t], PRIMES[9 + t])
  {
    assert Next(23, 29) && Next(29, 31) && Next(31, 37) && Next(37, 41);
    assert Next(41, 43) && Next(43, 47) && Next(47, 53) && Next(53, 59);
    hide Next;
    assert PRIMES[8 + t] == P1[t];
    assert PRIMES[9 + t] == if t < 7 then P1[t + 1] else P2[0];
  }

  lemma NextInRow2(t: nat)
    requires t < 8
    ensures Next(PRIMES[16 + t], PRIMES[17 + t])
  {
    assert Next(59, 61) && Next(61, 67) && Next(67, 71) && Next(71, 73);
    assert Next(73, 79) && Next(79, 83) && Next(83, 89) && Next(89, 97);
    hide Next;
    assert PRIMES[16 + t] == P2[t];
    assert PRIMES[17 + t] == if t < 7 then P2[t + 1] else P3[0];
  }

  lemma NextInRow3(t: nat)
    requires t < 8
    ensures Next(PRIMES[24 + t], PRIMES[25 + t])
  {
    assert Next(97, 101) && Next(101, 103) && Next(103, 107) && Next(107, 109);
    assert Next(109, 113) && Next(113, 127) && Next(127, 131) && Next(131, 137);
    hide Next;
    assert PRIMES[24 + t] == P3[t];
    assert PRIMES[25 + t] == if t < 7 then P3[t + 1] else P4[0];
  }

  lemma NextInRow4(t: nat)
    requires t < 8
    ensures Next(PRIMES[32 + t], PRIMES[33 + t])
  {
    assert Next(137, 139) && Next(139, 149) && Next(149, 151) && Next(151, 157);
    assert Next(157, 163) && Next(163, 167) && Next(167, 173) && Next(173, 179);
    hide Next;
    assert PRIMES[32 + t] == P4[t];
    assert PRIMES[33 + t] == if t < 7 then P4[t + 1] else P5[0];
  }

  lemma NextInRow5(t: nat)
    requires t < 8
    ensures Next(PRIMES[40 + t], PRIMES[41 + t])
  {
    assert Next(179, 181) && Next(181, 191) && Next(191, 193) && Next(193, 197);
    assert Next(197, 199) && Next(199, 211) && Next(211, 223) && Next(223, 227);
    hide Next;
    assert PRIMES[40 + t] == P5[t];
    assert PRIMES[41 + t] == if t < 7 then P5[t + 1] else P6[0];
  }

  lemma NextInRow6(t: nat)
    requires t < 8
    ensures Next(PRIMES[48 + t], PRIMES[49 + t])
  {
    assert Next(227, 229) && Next(229, 233) && Next(233, 239) && Next(239, 241);
    assert Next(241, 251) && Next(251, 257) && Next(257, 263) && Next(263, 269);
    hide Next;
    assert PRIMES[48 + t] == P6[t];
    assert PRIMES[49 + t] == if t < 7 then P6[t + 1] else P7[0];
  }

  lemma NextInRow7(t: nat)
    requires t < 7
    ensures Next(PRIMES[56 + t], PRIMES[57 + t])
  {
    assert Next(269, 271) && Next(271, 277) && Next(277, 281) && Next(281, 283);
    assert Next(283, 293) && Next(293, 307) && Next(307, 311);
    hide Next;
    assert PRIMES[56 + t] == P7[t];
    assert PRIMES[57 + t] == P7[t + 1];
  }

  lemma NextInTable(t: nat)
    requires t < 63
    ensures |PRIMES| == 64 && Next(PRIMES[t], PRIMES[t + 1])
  {
    hide Next;
    if t < 8 { NextInRow0(t); }
    else if t < 16 { NextInRow1(t - 8); }
    else if t < 24 { NextInRow2(t - 16); }
    else if t < 32 { NextInRow3(t - 24); }
    else if t < 40 { NextInRow4(t - 32); }
    else if t < 48 { NextInRow5(t - 40); }
    else if t < 56 { NextInRow6(t - 48); }
    else { NextInRow7(t - 56); }
  }

  /** Two, and from each of the first 63 to the next one: all of them primes, and no prime left out. */
  lemma FirstPrimes(t: nat, n: nat)
    requires t < 64
    ensures |PRIMES| == 64 && PRIMES[0] == 2 && IsPrime(PRIMES[t])
    ensures t < 63 && PRIMES[t] < n < PRIMES[t + 1] ==> !IsPrime(n)
    ensures t < 63 ==> PRIMES[t] < PRIMES[t + 1]
  {
    hide LeastFactor, IsPrime;
    Bounded(t);
    if t == 0 {
      Two();
    } else {
      NextInTable(t - 1);
    }
    PrimeIff(PRIMES[t]);
    if t < 63 {
      NextInTable(t);
      Bounded(t + 1);
      if PRIMES[t] < n < PRIMES[t + 1] {
        NoneBetween(PRIMES[t] + 1, PRIMES[t + 1], n);
        PrimeIff(n);
      }
    }
  }

  lemma Two()
    ensures PRIMES[0] == 2 && LeastFactor(2) == 2
  {
  }

  lemma {:induction false} Bounded(t: nat)
    requires t < 64
    ensures |PRIMES| == 64 && PRIMES[0] == 2 && 2 <= PRIMES[t] <= 311
    decreases 64 - t
  {
    hide LeastFactor;
    if t == 63 {
      assert PRIMES[63] == P7[7];
    } else {
      NextInTable(t);
      Bounded(t + 1);
    }
    AtLeastTwo(t);
  }

  lemma {:induction false} AtLeastTwo(t: nat)
    requires t < 64
    ensures PRIMES[t] >= 2
  {
    hide LeastFactor;
    if t == 0 {
      Two();
    } else {
      AtLeastTwo(t - 1);
      NextInTable(t - 1);
    }
  }

  // ------------------------------------------------------------- the fractional parts of their roots

  const TWO64: nat := 0x1_0000_0000_0000_0000
  const TWO96: nat := 0x1_0000_0000_0000_0000_0000_0000

  function Square(n: nat): nat { n * n }
  function Cube(n: nat): nat { n * n * n }

  /** k is the first 32 bits of the fractional part of the square root of p, i being its whole part. */
  predicate SquareRootBits(p: nat, i: nat, k: nat) {
    Square(i) <= p < Square(i + 1) && Square(i * TWO32 + k) <= p * TWO64 < Square(i * TWO32 + k + 1)
  }

  /** The same for the cube root. */
  predicate CubeRootBits(p: nat, i: nat, k: nat) {
    Cube(i) <= p < Cube(i + 1) && Cube(i * TWO32 + k) <= p * TWO96 < Cube(i * TWO32 + k + 1)
  }

  ghost predicate FromSquareRoot(p: nat, k: nat) {
    exists i: nat :: SquareRootBits(p, i, k)
  }

  ghost predicate FromCubeRoot(p: nat, k: nat) {
    exists i: nat :: CubeRootBits(p, i, k)
  }

  lemma RootsInRow0(t: nat)
    requires t < 8
    ensures FromCubeRoot(PRIMES[t], K[t])
  {
    assert CubeRootBits(2, 1, 0x428a2f98) && CubeRootBits(3, 1, 0x71374491);
    assert FromCubeRoot(2, 0x428a2f98) && FromCubeRoot(3, 0x71374491);
    assert CubeRootBits(5, 1, 0xb5c0fbcf) && CubeRootBits(7, 1, 0xe9b5dba5);
    assert FromCubeRoot(5, 0xb5c0fbcf) && FromCubeRoot(7, 0xe9b5dba5);
    assert CubeRootBits(11, 2, 0x3956c25b) && CubeRootBits(13, 2, 0x59f111f1);
    assert FromCubeRoot(11, 0x3956c25b) && FromCubeRoot(13, 0x59f111f1);
    assert CubeRootBits(17, 2, 0x923f82a4) && CubeRootBits(19, 2, 0xab1c5ed5);
    assert FromCubeRoot(17, 0x923f82a4) && FromCubeRoot(19, 0xab1c5ed5);
    hide FromCubeRoot;
    assert PRIMES[t] == P0[t] && K[t] == K0[t];
  }

  lemma RootsInRow1(t: nat)
    requires t < 8
    ensures FromCubeRoot(PRIMES[8 + t], K[8 + t])
  {
    assert CubeRootBits(23, 2, 0xd807aa98) && CubeRootBits(29, 3, 0x12835b01);
    assert FromCubeRoot(23, 0xd807aa98) && FromCubeRoot(29, 0x12835b01);
    assert CubeRootBits(31, 3, 0x243185be) && CubeRootBits(37, 3, 0x550c7dc3);
    assert FromCubeRoot(31, 0x243185be) && FromCubeRoot(37, 0x550c7dc3);
    assert CubeRootBits(41, 3, 0x72be5d74) && CubeRootBits(43, 3, 0x80deb1fe);
    assert FromCubeRoot(41, 0x72be5d74) && FromCubeRoot(43, 0x80deb1fe);
    assert CubeRootBits(47, 3, 0x9bdc06a7) && CubeRootBits(53, 3, 0xc19bf174);
    assert FromCubeRoot(47, 0x9bdc06a7) && FromCubeRoot(53, 0xc19bf174);
    hide FromCubeRoot;
    assert PRIMES[8 + t] == P1[t] && K[8 + t] == K1[t];
  }

  lemma RootsInRow2(t: nat)
    requires t < 8
    ensures FromCubeRoot(PRIMES[16 + t], K[16 + t])
  {
    assert CubeRootBits(59, 3, 0xe49b69c1) && CubeRootBits(61, 3, 0xefbe4786);
    assert FromCubeRoot(59, 0xe49b69c1) && FromCubeRoot(61, 0xefbe4786);
    assert CubeRootBits(67, 4, 0x0fc19dc6) && CubeRootBits(71, 4, 0x240ca1cc);
    assert FromCubeRoot(67, 0x0fc19dc6) && FromCubeRoot(71, 0x240ca1cc);
    assert CubeRootBits(73, 4, 0x2de92c6f) && CubeRootBits(79, 4, 0x4a7484aa);
    assert FromCubeRoot(73, 0x2de92c6f) && FromCubeRoot(79, 0x4a7484aa);
    assert CubeRootBits(83, 4, 0x5cb0a9dc) && CubeRootBits(89, 4, 0x76f988da);
    assert FromCubeRoot(83, 0x5cb0a9dc) && FromCubeRoot(89, 0x76f988da);
    hide FromCubeRoot;
    assert PRIMES[16 + t] == P2[t] && K[16 + t] == K2[t];
  }

  lemma RootsInRow3(t: nat)
    requires t < 8
    ensures FromCubeRoot(PRIMES[24 + t], K[24 + t])
  {
    assert CubeRootBits(97, 4, 0x983e5152) && CubeRootBits(101, 4, 0xa831c66d);
    assert FromCubeRoot(97, 0x983e5152) && FromCubeRoot(101, 0xa831c66d);
    assert CubeRootBits(103, 4, 0xb00327c8) && CubeRootBits(107, 4, 0xbf597fc7);
    assert FromCubeRoot(103, 0xb00327c8) && FromCubeRoot(107, 0xbf597fc7);
    assert CubeRootBits(109, 4, 0xc6e00bf3) && CubeRootBits(113, 4, 0xd5a79147);
    assert FromCubeRoot(109, 0xc6e00bf3) && FromCubeRoot(113, 0xd5a79147);
    assert CubeRootBits(127, 5, 0x06ca6351) && CubeRootBits(131, 5, 0x14292967);
    assert FromCubeRoot(127, 0x06ca6351) && FromCubeRoot(131, 0x14292967);
    hide FromCubeRoot;
    assert PRIMES[24 + t] == P3[t] && K[24 + t] == K3[t];
  }

  lemma RootsInRow4(t: nat)
    requires t < 8
    ensures FromCubeRoot(PRIMES[32 + t], K[32 + t])
  {
    assert CubeRootBits(137, 5, 0x27b70a85) && CubeRootBits(139, 5, 0x2e1b2138);
    assert FromCubeRoot(137, 0x27b70a85) && FromCubeRoot(139, 0x2e1b2138);
    assert CubeRootBits(149, 5, 0x4d2c6dfc) && CubeRootBits(151, 5, 0x53380d13);
    assert FromCubeRoot(149, 0x4d2c6dfc) && FromCubeRoot(151, 0x53380d13);
    assert CubeRootBits(157, 5, 0x650a7354) && CubeRootBits(163, 5, 0x766a0abb);
    assert FromCubeRoot(157, 0x650a7354) && FromCubeRoot(163, 0x766a0abb);
    assert CubeRootBits(167, 5, 0x81c2c92e) && CubeRootBits(173, 5, 0x92722c85);
    assert FromCubeRoot(167, 0x81c2c92e) && FromCubeRoot(173, 0x92722c85);
    hide FromCubeRoot;
    assert PRIMES[32 + t] == P4[t] && K[32 + t] == K4[t];
  }

  lemma RootsInRow5(t: nat)
    requires t < 8
    ensures FromCubeRoot(PRIMES[40 + t], K[40 + t])
  {
    assert CubeRootBits(179, 5, 0xa2bfe8a1) && CubeRootBits(181, 5, 0xa81a664b);
    assert FromCubeRoot(179, 0xa2bfe8a1) && FromCubeRoot(181, 0xa81a664b);
    assert CubeRootBits(191, 5, 0xc24b8b70) && CubeRootBits(193, 5, 0xc76c51a3);
    assert FromCubeRoot(191, 0xc24b8b70) && FromCubeRoot(193, 0xc76c51a3);
    assert CubeRootBits(197, 5, 0xd192e819) && CubeRootBits(199, 5, 0xd6990624);
    assert FromCubeRoot(197, 0xd192e819) && FromCubeRoot(199, 0xd6990624);
    assert CubeRootBits(211, 5, 0xf40e3585) && CubeRootBits(223, 6, 0x106aa070);
    assert FromCubeRoot(211, 0xf40e3585) && FromCubeRoot(223, 0x106aa070);
    hide FromCubeRoot;
    assert PRIMES[40 + t] == P5[t] && K[40 + t] == K5[t];
  }

  lemma RootsInRow6(t: nat)
    requires t < 8
    ensures FromCubeRoot(PRIMES[48 + t], K[48 + t])
  {
    assert CubeRootBits(227, 6, 0x19a4c116) && CubeRootBits(229, 6, 0x1e376c08);
    assert FromCubeRoot(227, 0x19a4c116) && FromCubeRoot(229, 0x1e376c08);
    assert CubeRootBits(233, 6, 0x2748774c) && CubeRootBits(239, 6, 0x34b0bcb5);
    assert FromCubeRoot(233, 0x2748774c) && FromCubeRoot(239, 0x34b0bcb5);
    assert CubeRootBits(241, 6, 0x391c0cb3) && CubeRootBits(251, 6, 0x4ed8aa4a);
    assert FromCubeRoot(241, 0x391c0cb3) && FromCubeRoot(251, 0x4ed8aa4a);
    assert CubeRootBits(257, 6, 0x5b9cca4f) && CubeRootBits(263, 6, 0x682e6ff3);
    assert FromCubeRoot(257, 0x5b9cca4f) && FromCubeRoot(263, 0x682e6ff3);
    hide FromCubeRoot;
    assert PRIMES[48 + t] == P6[t] && K[48 + t] == K6[t];
  }

  lemma RootsInRow7(t: nat)
    requires t < 8
    ensures FromCubeRoot(PRIMES[56 + t], K[56 + t])
  {
    assert CubeRootBits(269, 6, 0x748f82ee) && CubeRootBits(271, 6, 0x78a5636f);
    assert FromCubeRoot(269, 0x748f82ee) && FromCubeRoot(271, 0x78a5636f);
    assert CubeRootBits(277, 6, 0x84c87814) && CubeRootBits(281, 6, 0x8cc70208);
    assert FromCubeRoot(277, 0x84c87814) && FromCubeRoot(281, 0x8cc70208);
    assert CubeRootBits(283, 6, 0x90befffa) && CubeRootBits(293, 6, 0xa4506ceb);
    assert FromCubeRoot(283, 0x90befffa) && FromCubeRoot(293, 0xa4506ceb);
    assert CubeRootBits(307, 6, 0xbef9a3f7) && CubeRootBits(311, 6, 0xc67178f2);
    assert FromCubeRoot(307, 0xbef9a3f7) && FromCubeRoot(311, 0xc67178f2);
    hide FromCubeRoot;
    assert PRIMES[56 + t] == P7[t] && K[56 + t] == K7[t];
  }

  /** Section 4.2.2: every round constant is the fraction of the cube root of its prime. */
  lemma ConstantsAreCubeRoots(t: nat)
    requires t < 64
    ensures |PRIMES| == 64 && FromCubeRoot(PRIMES[t], RoundConstant(t))
  {
    hide FromCubeRoot;
    if t < 8 { RootsInRow0(t); }
    else if t < 16 { RootsInRow1(t - 8); }
    else if t < 24 { RootsInRow2(t - 16); }
    else if t < 32 { RootsInRow3(t - 24); }
    else if t < 40 { RootsInRow4(t - 32); }
    else if t < 48 { RootsInRow5(t - 40); }
    else if t < 56 { RootsInRow6(t - 48); }
    else { RootsInRow7(t - 56); }
  }

  /** Section 5.3.3: the initial hash value, from the square roots of the first eight primes. */
  lemma InitialValueIsSquareRoots(t: nat)
    requires t < 8
    ensures FromSquareRoot(PRIMES[t], H0[t])
  {
    assert SquareRootBits(2, 1, 0x6a09e667) && SquareRootBits(3, 1, 0xbb67ae85);
    assert FromSquareRoot(2, 0x6a09e667) && FromSquareRoot(3, 0xbb67ae85);
    assert SquareRootBits(5, 2, 0x3c6ef372) && SquareRootBits(7, 2, 0xa54ff53a);
    assert FromSquareRoot(5, 0x3c6ef372) && FromSquareRoot(7, 0xa54ff53a);
    assert SquareRootBits(11, 3, 0x510e527f) && SquareRootBits(13, 3, 0x9b05688c);
    assert FromSquareRoot(11, 0x510e527f) && FromSquareRoot(13, 0x9b05688c);
    assert SquareRootBits(17, 4, 0x1f83d9ab) && SquareRootBits(19, 4, 0x5be0cd19);
    assert FromSquareRoot(17, 0x1f83d9ab) && FromSquareRoot(19, 0x5be0cd19);
    hide FromSquareRoot;
    assert PRIMES[t] == P0[t];
  }

  lemma Monotone(a: nat, b: nat, c: nat, d: nat)
    requires a <= b && c <= d
    ensures a * c <= b * d
  {
    assert (b - a) * c >= 0 && b * (d - c) >= 0;
  }

  lemma PowersGrow(a: nat, b: nat)
    requires a <= b
    ensures Square(a) <= Square(b) && Cube(a) <= Cube(b)
  {
    Monotone(a, b, a, b);
    Monotone(a * a, b * b, a, b);
  }

  /** A whole part and 32 bits: the number determines both. */
  lemma PartsAreUnique(i: nat, k: Word, j: nat, l: Word)
    requires i * TWO32 + k == j * TWO32 + l
    ensures k == l
  {
  }

  /** So a prime determines its constants. */
  lemma RootsDetermine(p: nat, k: Word, l: Word)
    ensures FromCubeRoot(p, k) && FromCubeRoot(p, l) ==> k == l
    ensures FromSquareRoot(p, k) && FromSquareRoot(p, l) ==> k == l
  {
    hide Cube, Square;
    if i: nat, j: nat :| CubeRootBits(p, i, k) && CubeRootBits(p, j, l) {
      var m, n := i * TWO32 + k, j * TWO32 + l;
      if m < n { PowersGrow(m + 1, n); }
      if n < m { PowersGrow(n + 1, m); }
      PartsAreUnique(i, k, j, l);
    }
    if i: nat, j: nat :| SquareRootBits(p, i, k) && SquareRootBits(p, j, l) {
      var m, n := i * TWO32 + k, j * TWO32 + l;
      if m < n { PowersGrow(m + 1, n); }
      if n < m { PowersGrow(n + 1, m); }
      PartsAreUnique(i, k, j, l);
    }
  }
}
