/**
 The constants and the logical functions of SHA-256 by their definitions in FIPS 180-4: the round
 constants are fractions of cube roots of the first 64 primes, the initial hash value fractions of
 square roots of the first eight.
 */
module Sha256Constants {
  import opened Sha256

  // ---------- primes ----------

  ghost predicate IsPrime(n: nat) { n >= 2 && forall d :: 2 <= d < n ==> n % d != 0 }

  // Some divisor from d on has a square of at most n.
  predicate Divides(n: nat, d: nat)
    requires d >= 2
    decreases n - d
  {
    d * d <= n && (n % d == 0 || (d < n && Divides(n, d + 1)))
  }

  lemma {:induction false} DividesIff(n: nat, d: nat)
    requires d >= 2
    ensures Divides(n, d) <==> exists k :: d <= k && k * k <= n && n % k == 0
    decreases n - d
  {
    if d * d <= n {
      assert d < n by { assert d * d >= 2 * d; }
      DividesIff(n, d + 1);
      if Divides(n, d + 1) {
        var k :| d + 1 <= k && k * k <= n && n % k == 0;
      }
    } else {
      forall k | d <= k ensures k * k > n { assert k * k >= d * d; }
    }
  }

  // Trying the divisors up to the root is enough.
  lemma TrialDivision(n: nat)
    requires n >= 2
    ensures IsPrime(n) <==> !Divides(n, 2)
  {
    DividesIff(n, 2);
    if Divides(n, 2) {
      var k :| 2 <= k && k * k <= n && n % k == 0;
      assert k < n by { assert k * k >= 2 * k; }
    } else {
      forall d | 2 <= d < n ensures n % d != 0 { NoDivisor(n, d); }
    }
  }

  lemma NoDivisor(n: nat, d: nat)
    requires 2 <= d < n && forall k :: 2 <= k && k * k <= n ==> n % k != 0
    ensures n % d != 0
  {
    if n % d == 0 { Cofactor(n, d, n / d); }
  }

  // A divisor and its cofactor are not both beyond the root.
  lemma Cofactor(n: nat, d: nat, e: nat)
    requires 2 <= d < n && n % d == 0 && e == n / d
    ensures 2 <= e && n % e == 0 && (d * d <= n || e * e <= n)
  {
    assert n == d * e;
    assert e != 0 && e != 1;
    Remainder(n, d, e);
    if e <= d { Ordered(e, d); } else { Ordered(d, e); }
  }

  lemma Ordered(a: nat, b: nat)
    requires a <= b
    ensures a * a <= a * b
  {
  }

  lemma Remainder(n: nat, a: nat, b: nat)
    requires b > 0 && n == a * b
    ensures n % b == 0
  {
    var q, r := n / b, n % b;
    assert n == q * b + r;
    assert (a - q) * b == r;
    if a > q { AtLeast(a - q, b); } else if a < q { AtLeast(q - a, b); }
  }

  lemma AtLeast(k: nat, b: nat)
    requires k >= 1
    ensures k * b >= b
  {
  }

  // Below the square of 19 it is enough to try the primes up to 17.
  predicate Sieved(n: nat) {
    && (n % 2 != 0 || n == 2) && (n % 3 != 0 || n == 3) && (n % 5 != 0 || n == 5) && (n % 7 != 0 || n == 7)
    && (n % 11 != 0 || n == 11) && (n % 13 != 0 || n == 13) && (n % 17 != 0 || n == 17)
  }

  lemma SmallFactor(n: nat, k: nat, e: nat)
    requires 2 <= k < 19 && k < n && n == k * e
    ensures !Sieved(n)
  {
    if k % 2 == 0 {
      PartOf(n, k, e, 2);
    } else if k % 3 == 0 {
      PartOf(n, k, e, 3);
    } else if k == 5 {
      Remainder(n, e, 5);
    } else if k == 7 {
      Remainder(n, e, 7);
    } else if k == 11 {
      Remainder(n, e, 11);
    } else if k == 13 {
      Remainder(n, e, 13);
    } else {
      Remainder(n, e, 17);
    }
  }

  lemma PartOf(n: nat, k: nat, e: nat, c: nat)
    requires c > 0 && k % c == 0 && n == k * e
    ensures n % c == 0
  {
    assert k == k / c * c;
    assert n == k / c * e * c;
    Remainder(n, k / c * e, c);
  }

  lemma SievedIsPrime(n: nat)
    requires 2 <= n < 361 && Sieved(n)
    ensures IsPrime(n)
  {
    TrialDivision(n);
    if Divides(n, 2) {
      DividesIff(n, 2);
      var k :| 2 <= k && k * k <= n && n % k == 0;
      BelowRoot(n, k);
      SmallFactor(n, k, n / k);
    }
  }

  lemma PrimeIsSieved(n: nat)
    requires IsPrime(n)
    ensures Sieved(n)
  {
    assert forall d :: 2 <= d < n ==> n % d != 0;
    assert 2 < n ==> n % 2 != 0;
    assert 3 < n ==> n % 3 != 0;
    assert 5 < n ==> n % 5 != 0;
    assert 7 < n ==> n % 7 != 0;
    assert 11 < n ==> n % 11 != 0;
    assert 13 < n ==> n % 13 != 0;
    assert 17 < n ==> n % 17 != 0;
  }

  lemma BelowRoot(n: nat, k: nat)
    requires 2 <= k && k * k <= n < 361
    ensures k < 19 && k < n
  {
    assert k * k >= 2 * k;
    assert k >= 19 ==> k * k >= 19 * 19;
  }

  // Two primes with none in between.
  ghost predicate Adjacent(q: nat, p: nat) { q < p && IsPrime(p) && forall n :: q < n < p ==> !IsPrime(n) }

  // The i-th prime, from zero.
  ghost predicate NthPrime(i: nat, p: nat) {
    if i == 0 then p == 2 else exists q: nat :: Adjacent(q, p) && NthPrime(i - 1, q)
  }

  // No number from n on below p is prime.
  predicate NoneFrom(n: nat, p: nat)
    decreases p - n
  {
    n >= p || (!Sieved(n) && NoneFrom(n + 1, p))
  }

  predicate Skips(q: nat, p: nat) { 2 <= q < p < 361 && Sieved(p) && NoneFrom(q + 1, p) }

  lemma {:induction false} NoneBetween(n: nat, p: nat)
    requires 2 <= n && p < 361 && NoneFrom(n, p)
    ensures forall k :: n <= k < p ==> !IsPrime(k)
    decreases p - n
  {
    if n < p {
      if IsPrime(n) { PrimeIsSieved(n); }
      NoneBetween(n + 1, p);
    }
  }

  lemma Next(i: nat, q: nat, p: nat)
    requires NthPrime(i, q) && Skips(q, p)
    ensures NthPrime(i + 1, p)
  {
    SievedIsPrime(p);
    NoneBetween(q + 1, p);
    assert Adjacent(q, p);
  }

  // ---------- roots ----------

  const WORD := 0x1_0000_0000

  // The first 32 bits of the fractional part of a cube root: m is the root of p, times the
  // size of a word, rounded down.
  ghost predicate CubeFraction(p: nat, w: bv32) { exists m: nat :: CubeFloor(p, m) && m % WORD == w as int }

  predicate CubeFloor(p: nat, m: nat) { m * m * m <= p * (WORD * WORD * WORD) < (m + 1) * (m + 1) * (m + 1) }

  ghost predicate SquareFraction(p: nat, w: bv32) { exists m: nat :: SquareFloor(p, m) && m % WORD == w as int }

  predicate SquareFloor(p: nat, m: nat) { m * m <= p * (WORD * WORD) < (m + 1) * (m + 1) }

  // ---------- the round constants ----------

  // The first primes, eight to a row.
  const P0: seq<nat> := [2, 3, 5, 7, 11, 13, 17, 19]
  const P1: seq<nat> := [23, 29, 31, 37, 41, 43, 47, 53]
  const P2: seq<nat> := [59, 61, 67, 71, 73, 79, 83, 89]
  const P3: seq<nat> := [97, 101, 103, 107, 109, 113, 127, 131]
  const P4: seq<nat> := [137, 139, 149, 151, 157, 163, 167, 173]
  const P5: seq<nat> := [179, 181, 191, 193, 197, 199, 211, 223]
  const P6: seq<nat> := [227, 229, 233, 239, 241, 251, 257, 263]
  const P7: seq<nat> := [269, 271, 277, 281, 283, 293, 307, 311]
  const PRIMES: seq<nat> := (P0 + P1 + (P2 + P3)) + (P4 + P5 + (P6 + P7))

  lemma Gaps0(j: nat)
    requires j < 8
    ensures Skips(P0[j], if j < 7 then P0[j + 1] else P1[0])
  {
    match j
    case 0 => assert Skips(2, 3);
    case 1 => assert Skips(3, 5);
    case 2 => assert Skips(5, 7);
    case 3 => assert Skips(7, 11);
    case 4 => assert Skips(11, 13);
    case 5 => assert Skips(13, 17);
    case 6 => assert Skips(17, 19);
    case 7 => assert Skips(19, 23);
  }

  lemma Fractions0()
    ensures forall j :: 0 <= j < 8 ==> CubeFraction(P0[j], K0[j])
  {
    assert CubeFloor(2, 0x1_428a2f98) && CubeFloor(3, 0x1_71374491) && CubeFloor(5, 0x1_b5c0fbcf);
    assert CubeFloor(7, 0x1_e9b5dba5) && CubeFloor(11, 0x2_3956c25b) && CubeFloor(13, 0x2_59f111f1);
    assert CubeFloor(17, 0x2_923f82a4) && CubeFloor(19, 0x2_ab1c5ed5);
  }

  lemma Gaps1(j: nat)
    requires j < 8
    ensures Skips(P1[j], if j < 7 then P1[j + 1] else P2[0])
  {
    match j
    case 0 => assert Skips(23, 29);
    case 1 => assert Skips(29, 31);
    case 2 => assert Skips(31, 37);
    case 3 => assert Skips(37, 41);
    case 4 => assert Skips(41, 43);
    case 5 => assert Skips(43, 47);
    case 6 => assert Skips(47, 53);
    case 7 => assert Skips(53, 59);
  }

  lemma Fractions1()
    ensures forall j :: 0 <= j < 8 ==> CubeFraction(P1[j], K1[j])
  {
    assert CubeFloor(23, 0x2_d807aa98) && CubeFloor(29, 0x3_12835b01) && CubeFloor(31, 0x3_243185be);
    assert CubeFloor(37, 0x3_550c7dc3) && CubeFloor(41, 0x3_72be5d74) && CubeFloor(43, 0x3_80deb1fe);
    assert CubeFloor(47, 0x3_9bdc06a7) && CubeFloor(53, 0x3_c19bf174);
  }

  lemma Gaps2(j: nat)
    requires j < 8
    ensures Skips(P2[j], if j < 7 then P2[j + 1] else P3[0])
  {
    match j
    case 0 => assert Skips(59, 61);
    case 1 => assert Skips(61, 67);
    case 2 => assert Skips(67, 71);
    case 3 => assert Skips(71, 73);
    case 4 => assert Skips(73, 79);
    case 5 => assert Skips(79, 83);
    case 6 => assert Skips(83, 89);
    case 7 => assert Skips(89, 97);
  }

  lemma Fractions2()
    ensures forall j :: 0 <= j < 8 ==> CubeFraction(P2[j], K2[j])
  {
    assert CubeFloor(59, 0x3_e49b69c1) && CubeFloor(61, 0x3_efbe4786) && CubeFloor(67, 0x4_0fc19dc6);
    assert CubeFloor(71, 0x4_240ca1cc) && CubeFloor(73, 0x4_2de92c6f) && CubeFloor(79, 0x4_4a7484aa);
    assert CubeFloor(83, 0x4_5cb0a9dc) && CubeFloor(89, 0x4_76f988da);
  }

  lemma Gaps3(j: nat)
    requires j < 8
    ensures Skips(P3[j], if j < 7 then P3[j + 1] else P4[0])
  {
    match j
    case 0 => assert Skips(97, 101);
    case 1 => assert Skips(101, 103);
    case 2 => assert Skips(103, 107);
    case 3 => assert Skips(107, 109);
    case 4 => assert Skips(109, 113);
    case 5 => assert Skips(113, 127);
    case 6 => assert Skips(127, 131);
    case 7 => assert Skips(131, 137);
  }

  lemma Fractions3()
    ensures forall j :: 0 <= j < 8 ==> CubeFraction(P3[j], K3[j])
  {
    assert CubeFloor(97, 0x4_983e5152) && CubeFloor(101, 0x4_a831c66d) && CubeFloor(103, 0x4_b00327c8);
    assert CubeFloor(107, 0x4_bf597fc7) && CubeFloor(109, 0x4_c6e00bf3) && CubeFloor(113, 0x4_d5a79147);
    assert CubeFloor(127, 0x5_06ca6351) && CubeFloor(131, 0x5_14292967);
  }

  lemma Gaps4(j: nat)
    requires j < 8
    ensures Skips(P4[j], if j < 7 then P4[j + 1] else P5[0])
  {
    match j
    case 0 => assert Skips(137, 139);
    case 1 => assert Skips(139, 149);
    case 2 => assert Skips(149, 151);
    case 3 => assert Skips(151, 157);
    case 4 => assert Skips(157, 163);
    case 5 => assert Skips(163, 167);
    case 6 => assert Skips(167, 173);
    case 7 => assert Skips(173, 179);
  }

  lemma Fractions4()
    ensures forall j :: 0 <= j < 8 ==> CubeFraction(P4[j], K4[j])
  {
    assert CubeFloor(137, 0x5_27b70a85) && CubeFloor(139, 0x5_2e1b2138) && CubeFloor(149, 0x5_4d2c6dfc);
    assert CubeFloor(151, 0x5_53380d13) && CubeFloor(157, 0x5_650a7354) && CubeFloor(163, 0x5_766a0abb);
    assert CubeFloor(167, 0x5_81c2c92e) && CubeFloor(173, 0x5_92722c85);
  }

  lemma Gaps5(j: nat)
    requires j < 8
    ensures Skips(P5[j], if j < 7 then P5[j + 1] else P6[0])
  {
    match j
    case 0 => assert Skips(179, 181);
    case 1 => assert Skips(181, 191);
    case 2 => assert Skips(191, 193);
    case 3 => assert Skips(193, 197);
    case 4 => assert Skips(197, 199);
    case 5 => assert Skips(199, 211);
    case 6 => assert Skips(211, 223);
    case 7 => assert Skips(223, 227);
  }

  lemma Fractions5()
    ensures forall j :: 0 <= j < 8 ==> CubeFraction(P5[j], K5[j])
  {
    assert CubeFloor(179, 0x5_a2bfe8a1) && CubeFloor(181, 0x5_a81a664b) && CubeFloor(191, 0x5_c24b8b70);
    assert CubeFloor(193, 0x5_c76c51a3) && CubeFloor(197, 0x5_d192e819) && CubeFloor(199, 0x5_d6990624);
    assert CubeFloor(211, 0x5_f40e3585) && CubeFloor(223, 0x6_106aa070);
  }

  lemma Gaps6(j: nat)
    requires j < 8
    ensures Skips(P6[j], if j < 7 then P6[j + 1] else P7[0])
  {
    match j
    case 0 => assert Skips(227, 229);
    case 1 => assert Skips(229, 233);
    case 2 => assert Skips(233, 239);
    case 3 => assert Skips(239, 241);
    case 4 => assert Skips(241, 251);
    case 5 => assert Skips(251, 257);
    case 6 => assert Skips(257, 263);
    case 7 => assert Skips(263, 269);
  }

  lemma Fractions6()
    ensures forall j :: 0 <= j < 8 ==> CubeFraction(P6[j], K6[j])
  {
    assert CubeFloor(227, 0x6_19a4c116) && CubeFloor(229, 0x6_1e376c08) && CubeFloor(233, 0x6_2748774c);
    assert CubeFloor(239, 0x6_34b0bcb5) && CubeFloor(241, 0x6_391c0cb3) && CubeFloor(251, 0x6_4ed8aa4a);
    assert CubeFloor(257, 0x6_5b9cca4f) && CubeFloor(263, 0x6_682e6ff3);
  }

  lemma Gaps7(j: nat)
    requires j < 7
    ensures Skips(P7[j], P7[j + 1])
  {
    match j
    case 0 => assert Skips(269, 271);
    case 1 => assert Skips(271, 277);
    case 2 => assert Skips(277, 281);
    case 3 => assert Skips(281, 283);
    case 4 => assert Skips(283, 293);
    case 5 => assert Skips(293, 307);
    case 6 => assert Skips(307, 311);
  }

  lemma Fractions7()
    ensures forall j :: 0 <= j < 8 ==> CubeFraction(P7[j], K7[j])
  {
    assert CubeFloor(269, 0x6_748f82ee) && CubeFloor(271, 0x6_78a5636f) && CubeFloor(277, 0x6_84c87814);
    assert CubeFloor(281, 0x6_8cc70208) && CubeFloor(283, 0x6_90befffa) && CubeFloor(293, 0x6_a4506ceb);
    assert CubeFloor(307, 0x6_bef9a3f7) && CubeFloor(311, 0x6_c67178f2);
  }

  // ---------- all of them ----------

  lemma PrimeRows()
    ensures |PRIMES| == 64 && PRIMES[0] == 2
    ensures PRIMES[..8] == P0 && PRIMES[8..16] == P1 && PRIMES[16..24] == P2 && PRIMES[24..32] == P3
    ensures PRIMES[32..40] == P4 && PRIMES[40..48] == P5 && PRIMES[48..56] == P6 && PRIMES[56..] == P7
  {
  }

  lemma ConstantRows()
    ensures |K| == 64
    ensures K[..8] == K0 && K[8..16] == K1 && K[16..24] == K2 && K[24..32] == K3
    ensures K[32..40] == K4 && K[40..48] == K5 && K[48..56] == K6 && K[56..] == K7
  {
  }

  lemma GapAt(i: nat)
    requires i < 63
    ensures |PRIMES| == 64 && Skips(PRIMES[i], PRIMES[i + 1])
  {
    PrimeRows();
    if i < 8 { Gaps0(i); }
    else if i < 16 { Gaps1(i - 8); }
    else if i < 24 { Gaps2(i - 16); }
    else if i < 32 { Gaps3(i - 24); }
    else if i < 40 { Gaps4(i - 32); }
    else if i < 48 { Gaps5(i - 40); }
    else if i < 56 { Gaps6(i - 48); }
    else { Gaps7(i - 56); }
  }

  lemma FractionAt(i: nat)
    requires i < 64
    ensures |PRIMES| == |K| == 64 && CubeFraction(PRIMES[i], K[i])
  {
    PrimeRows();
    ConstantRows();
    if i < 8 { Fractions0(); }
    else if i < 16 { Fractions1(); }
    else if i < 24 { Fractions2(); }
    else if i < 32 { Fractions3(); }
    else if i < 40 { Fractions4(); }
    else if i < 48 { Fractions5(); }
    else if i < 56 { Fractions6(); }
    else { Fractions7(); }
  }

  lemma {:induction false} PrimeAt(i: nat)
    requires i < 64
    ensures |PRIMES| == 64 && NthPrime(i, PRIMES[i])
  {
    if i == 0 {
      PrimeRows();
    } else {
      PrimeAt(i - 1);
      GapAt(i - 1);
      Next(i - 1, PRIMES[i - 1], PRIMES[i]);
    }
  }

  // Section 4.2.2: the i-th round constant is the first 32 bits of the fractional part of the cube
  // root of the i-th prime.
  lemma RoundConstants(i: nat)
    requires i < |K|
    ensures |K| == 64 && exists p :: NthPrime(i, p) && CubeFraction(p, K[i])
  {
    ConstantRows();
    PrimeAt(i);
    FractionAt(i);
  }

  // Section 5.3.3: the initial hash value likewise, of the square roots of the first eight.
  lemma InitialValue(i: nat)
    requires i < 8
    ensures var words := [H0.a, H0.b, H0.c, H0.d, H0.e, H0.f, H0.g, H0.h];
      exists p :: NthPrime(i, p) && SquareFraction(p, words[i])
  {
    PrimeAt(i);
    PrimeRows();
    assert P0[i] == PRIMES[i];
    assert SquareFloor(2, 0x1_6a09e667) && SquareFloor(3, 0x1_bb67ae85) && SquareFloor(5, 0x2_3c6ef372);
    assert SquareFloor(7, 0x2_a54ff53a) && SquareFloor(11, 0x3_510e527f) && SquareFloor(13, 0x3_9b05688c);
    assert SquareFloor(17, 0x4_1f83d9ab) && SquareFloor(19, 0x4_5be0cd19);
  }

  // ---------- the logical functions ----------

  // Section 4.1.2, bit by bit: Ch is y where x has a bit and z elsewhere.
  lemma Chooses(x: bv32, y: bv32, z: bv32)
    ensures Ch(x, y, z) & x == y & x
    ensures Ch(x, y, z) & !x == z & !x
  {
  }

  // Maj is x and y where they agree and z elsewhere.
  lemma Agrees(x: bv32, y: bv32, z: bv32)
    ensures Maj(x, y, z) & !(x ^ y) == x & !(x ^ y)
  {
  }

  lemma Decides(x: bv32, y: bv32, z: bv32)
    ensures Maj(x, y, z) & (x ^ y) == z & (x ^ y)
  {
  }
}
