/** Where the constants of SHA-256 come from: sections 4.2.2 and 5.3.3 of FIPS 180-4. */
module FipsConstants {
  import opened Words
  import F = Fips180

  const TWO_64 := 0x1_0000_0000_0000_0000
  const TWO_96 := 0x1_0000_0000_0000_0000_0000_0000

  /** k is the first 32 bits of the fractional part of the cube root of p: with the integer part r
      before them they are the greatest number whose cube is no more than p, scaled by 2^32. */
  ghost predicate CubeRootBits(p: nat, k: word) {
    exists r: nat :: CubeRoot(p, r * TWO_32 + k)
  }

  predicate CubeRoot(p: nat, n: nat) { n * n * n <= p * TWO_96 < (n + 1) * (n + 1) * (n + 1) }

  /** The same of the square root. */
  ghost predicate SquareRootBits(p: nat, k: word) {
    exists r: nat :: SquareRoot(p, r * TWO_32 + k)
  }

  predicate SquareRoot(p: nat, n: nat) { n * n <= p * TWO_64 < (n + 1) * (n + 1) }

  ghost predicate Prime(n: nat) { n >= 2 && forall d | 2 <= d < n :: n % d != 0 }

  const PRIMES: seq<nat> :=
    [2, 3, 5, 7, 11, 13, 17, 19] +
    [23, 29, 31, 37, 41, 43, 47, 53] +
    [59, 61, 67, 71, 73, 79, 83, 89] +
    [97, 101, 103, 107, 109, 113, 127, 131] +
    [137, 139, 149, 151, 157, 163, 167, 173] +
    [179, 181, 191, 193, 197, 199, 211, 223] +
    [227, 229, 233, 239, 241, 251, 257, 263] +
    [269, 271, 277, 281, 283, 293, 307, 311]

  // ---------------------------------------------------------------- the first 64 primes

  /** Not divided by a smaller one of the primes below 18. */
  predicate Sifted(n: nat) {
    && n >= 2
    && (n == 2 || n % 2 != 0) && (n == 3 || n % 3 != 0) && (n == 5 || n % 5 != 0) && (n == 7 || n % 7 != 0)
    && (n == 11 || n % 11 != 0) && (n == 13 || n % 13 != 0) && (n == 17 || n % 17 != 0)
  }

  lemma Divides(n: nat, d: nat, e: nat)
    requires n == d * e && e > 0
    ensures n % e == 0
  {
    var q, r := n / e, n % e;
    assert n == q * e + r;
    assert (d - q) * e == r;
    assert d - q >= 1 ==> (d - q) * e >= e;
    assert d - q <= -1 ==> (d - q) * e <= -1 * e;
  }

  lemma Product(a: nat, b: nat, m: nat)
    requires a >= m && b >= m
    ensures a * b >= m * m
  {
    assert a * b >= a * m >= m * m;
  }

  /** A number below 19 squared that is not prime has a divisor below 19. */
  lemma SmallDivisor(n: nat, d: nat) returns (s: nat)
    requires n < 361 && 2 <= d < n && n % d == 0
    ensures 2 <= s < 19 && s < n && n % s == 0
  {
    var e := n / d;
    assert n == d * e;
    if d < 19 {
      s := d;
    } else {
      s := e;
      if e >= 19 { Product(d, e, 19); }
      Divides(n, d, e);
    }
  }

  lemma DividesToo(n: nat, s: nat, c: nat, q: nat)
    requires s > 0 && q > 0 && s == c * q && n % s == 0
    ensures n % q == 0
  {
    var k := n / s;
    assert n == k * s;
    assert k * (c * q) == (k * c) * q;
    Divides(n, k * c, q);
  }

  /** Of a divisor below 19, one of the primes sifted with is a divisor too. */
  lemma SiftedDivisor(n: nat, s: nat)
    requires 2 <= s < 19 && s < n && n % s == 0
    ensures !Sifted(n)
  {
    hide Sifted;
    if s in {2, 4, 6, 8, 10, 12, 14, 16, 18} {
      DividesToo(n, s, s / 2, 2);
      NotSifted(n, 2);
    } else if s in {3, 9, 15} {
      DividesToo(n, s, s / 3, 3);
      NotSifted(n, 3);
    } else {
      NotSifted(n, s);
    }
  }

  lemma NotSifted(n: nat, q: nat)
    requires q in {2, 3, 5, 7, 11, 13, 17} && q < n && n % q == 0
    ensures !Sifted(n)
  {
  }

  lemma PrimeIffSifted(n: nat)
    requires n < 361
    ensures Prime(n) <==> Sifted(n)
  {
    hide Sifted;
    if n >= 2 && !Prime(n) {
      var d :| 2 <= d < n && n % d == 0;
      var s := SmallDivisor(n, d);
      SiftedDivisor(n, s);
    }
    if Prime(n) { PrimeIsSifted(n); }
    SiftedAtLeastTwo(n);
  }

  lemma PrimeIsSifted(n: nat)
    requires Prime(n)
    ensures Sifted(n)
  {
    assert n > 2 ==> n % 2 != 0;
    assert n > 3 ==> n % 3 != 0;
    assert n > 5 ==> n % 5 != 0;
    assert n > 7 ==> n % 7 != 0;
    assert n > 11 ==> n % 11 != 0;
    assert n > 13 ==> n % 13 != 0;
    assert n > 17 ==> n % 17 != 0;
  }

  lemma SiftedAtLeastTwo(n: nat)
    ensures Sifted(n) ==> n >= 2
  {
  }

  /** q is the next prime after p. */
  ghost predicate NextPrime(p: nat, q: nat) { p < q && Prime(q) && forall n | p < n < q :: !Prime(n) }

  lemma TwoAndThree()
    ensures Prime(2) && NextPrime(2, 3)
  {
  }

  lemma Gap(p: nat, q: nat)
    requires 2 < p < q < 361 && q <= p + 14 && p % 2 == 1 && Sifted(q)
    requires (p + 2 < q ==> !Sifted(p + 2)) && (p + 4 < q ==> !Sifted(p + 4)) && (p + 6 < q ==> !Sifted(p + 6))
    requires (p + 8 < q ==> !Sifted(p + 8)) && (p + 10 < q ==> !Sifted(p + 10)) && (p + 12 < q ==> !Sifted(p + 12))
    ensures NextPrime(p, q)
  {
    hide Prime, Sifted;
    PrimeIffSifted(q);
    forall n | p < n < q ensures !Prime(n) {
      PrimeIffSifted(n);
      EvenOrNear(p, n);
    }
  }

  lemma EvenOrNear(p: nat, n: nat)
    requires 2 < p < n < p + 14 && p % 2 == 1
    ensures !Sifted(n) || n == p + 2 || n == p + 4 || n == p + 6 || n == p + 8 || n == p + 10 || n == p + 12
  {
    hide Sifted;
    if n % 2 == 0 {
      NotSifted(n, 2);
    } else {
      var a, b := p / 2, n / 2;
      assert p == 2 * a + 1 && n == 2 * b + 1;
    }
  }

  lemma NextRow0()
    ensures NextPrime(2, 3) && NextPrime(3, 5) && NextPrime(5, 7) && NextPrime(7, 11)
    ensures NextPrime(11, 13) && NextPrime(13, 17) && NextPrime(17, 19) && NextPrime(19, 23)
  {
    hide NextPrime;
    TwoAndThree();
    Gap(3, 5);
    Gap(5, 7);
    Gap(7, 11);
    Gap(11, 13);
    Gap(13, 17);
    Gap(17, 19);
    Gap(19, 23);
  }

  lemma NextRow1()
    ensures NextPrime(23, 29) && NextPrime(29, 31) && NextPrime(31, 37) && NextPrime(37, 41)
    ensures NextPrime(41, 43) && NextPrime(43, 47) && NextPrime(47, 53) && NextPrime(53, 59)
  {
    hide NextPrime;
    Gap(23, 29);
    Gap(29, 31);
    Gap(31, 37);
    Gap(37, 41);
    Gap(41, 43);
    Gap(43, 47);
    Gap(47, 53);
    Gap(53, 59);
  }

  lemma NextRow2()
    ensures NextPrime(59, 61) && NextPrime(61, 67) && NextPrime(67, 71) && NextPrime(71, 73)
    ensures NextPrime(73, 79) && NextPrime(79, 83) && NextPrime(83, 89) && NextPrime(89, 97)
  {
    hide NextPrime;
    Gap(59, 61);
    Gap(61, 67);
    Gap(67, 71);
    Gap(71, 73);
    Gap(73, 79);
    Gap(79, 83);
    Gap(83, 89);
    Gap(89, 97);
  }

  lemma NextRow3()
    ensures NextPrime(97, 101) && NextPrime(101, 103) && NextPrime(103, 107) && NextPrime(107, 109)
    ensures NextPrime(109, 113) && NextPrime(113, 127) && NextPrime(127, 131) && NextPrime(131, 137)
  {
    hide NextPrime;
    Gap(97, 101);
    Gap(101, 103);
    Gap(103, 107);
    Gap(107, 109);
    Gap(109, 113);
    Gap(113, 127);
    Gap(127, 131);
    Gap(131, 137);
  }

  lemma NextRow4()
    ensures NextPrime(137, 139) && NextPrime(139, 149) && NextPrime(149, 151) && NextPrime(151, 157)
    ensures NextPrime(157, 163) && NextPrime(163, 167) && NextPrime(167, 173) && NextPrime(173, 179)
  {
    hide NextPrime;
    Gap(137, 139);
    Gap(139, 149);
    Gap(149, 151);
    Gap(151, 157);
    Gap(157, 163);
    Gap(163, 167);
    Gap(167, 173);
    Gap(173, 179);
  }

  lemma NextRow5()
    ensures NextPrime(179, 181) && NextPrime(181, 191) && NextPrime(191, 193) && NextPrime(193, 197)
    ensures NextPrime(197, 199) && NextPrime(199, 211) && NextPrime(211, 223) && NextPrime(223, 227)
  {
    hide NextPrime;
    Gap(179, 181);
    Gap(181, 191);
    Gap(191, 193);
    Gap(193, 197);
    Gap(197, 199);
    Gap(199, 211);
    Gap(211, 223);
    Gap(223, 227);
  }

  lemma NextRow6()
    ensures NextPrime(227, 229) && NextPrime(229, 233) && NextPrime(233, 239) && NextPrime(239, 241)
    ensures NextPrime(241, 251) && NextPrime(251, 257) && NextPrime(257, 263) && NextPrime(263, 269)
  {
    hide NextPrime;
    Gap(227, 229);
    Gap(229, 233);
    Gap(233, 239);
    Gap(239, 241);
    Gap(241, 251);
    Gap(251, 257);
    Gap(257, 263);
    Gap(263, 269);
  }

  lemma NextRow7()
    ensures NextPrime(269, 271) && NextPrime(271, 277) && NextPrime(277, 281) && NextPrime(281, 283)
    ensures NextPrime(283, 293) && NextPrime(293, 307) && NextPrime(307, 311)
  {
    hide NextPrime;
    Gap(269, 271);
    Gap(271, 277);
    Gap(277, 281);
    Gap(281, 283);
    Gap(283, 293);
    Gap(293, 307);
    Gap(307, 311);
  }

  lemma NextInTable(i: nat)
    requires i < 63
    ensures |PRIMES| == 64 && NextPrime(PRIMES[i], PRIMES[i + 1])
  {
    hide NextPrime;
    NextRow0();
    NextRow1();
    NextRow2();
    NextRow3();
    NextRow4();
    NextRow5();
    NextRow6();
    NextRow7();
  }

  /** PRIMES are the first 64 primes: it begins with 2, and each is the next one after the one before. */
  lemma FirstPrimes(i: nat)
    requires i < 64
    ensures |PRIMES| == 64 && PRIMES[0] == 2 && Prime(PRIMES[i])
    ensures i > 0 ==> PRIMES[i - 1] < PRIMES[i] && forall n | PRIMES[i - 1] < n < PRIMES[i] :: !Prime(n)
  {
    hide Prime;
    FirstIsTwo();
    if i == 0 { TwoAndThree(); } else { NextInTable(i - 1); }
  }

  lemma FirstIsTwo()
    ensures |PRIMES| == 64 && PRIMES[0] == 2
  {
  }

  // ---------------------------------------------------------------- the constants

  lemma Cube(p: nat, r: nat, k: word)
    requires CubeRoot(p, r * TWO_32 + k)
    ensures CubeRootBits(p, k)
  {
  }

  lemma Constants0(i: nat)
    requires 0 <= i < 8
    ensures |F.K| == 64 == |PRIMES| && CubeRootBits(PRIMES[i], F.K[i])
  {
    hide CubeRootBits;
    if i == 0 {
      Cube(2, 1, 0x428a2f98);
    } else if i == 1 {
      Cube(3, 1, 0x71374491);
    } else if i == 2 {
      Cube(5, 1, 0xb5c0fbcf);
    } else if i == 3 {
      Cube(7, 1, 0xe9b5dba5);
    } else if i == 4 {
      Cube(11, 2, 0x3956c25b);
    } else if i == 5 {
      Cube(13, 2, 0x59f111f1);
    } else if i == 6 {
      Cube(17, 2, 0x923f82a4);
    } else if i == 7 {
      Cube(19, 2, 0xab1c5ed5);
    }
  }

  lemma Constants1(i: nat)
    requires 8 <= i < 16
    ensures |F.K| == 64 == |PRIMES| && CubeRootBits(PRIMES[i], F.K[i])
  {
    hide CubeRootBits;
    if i == 8 {
      Cube(23, 2, 0xd807aa98);
    } else if i == 9 {
      Cube(29, 3, 0x12835b01);
    } else if i == 10 {
      Cube(31, 3, 0x243185be);
    } else if i == 11 {
      Cube(37, 3, 0x550c7dc3);
    } else if i == 12 {
      Cube(41, 3, 0x72be5d74);
    } else if i == 13 {
      Cube(43, 3, 0x80deb1fe);
    } else if i == 14 {
      Cube(47, 3, 0x9bdc06a7);
    } else if i == 15 {
      Cube(53, 3, 0xc19bf174);
    }
  }

  lemma Constants2(i: nat)
    requires 16 <= i < 24
    ensures |F.K| == 64 == |PRIMES| && CubeRootBits(PRIMES[i], F.K[i])
  {
    hide CubeRootBits;
    if i == 16 {
      Cube(59, 3, 0xe49b69c1);
    } else if i == 17 {
      Cube(61, 3, 0xefbe4786);
    } else if i == 18 {
      Cube(67, 4, 0x0fc19dc6);
    } else if i == 19 {
      Cube(71, 4, 0x240ca1cc);
    } else if i == 20 {
      Cube(73, 4, 0x2de92c6f);
    } else if i == 21 {
      Cube(79, 4, 0x4a7484aa);
    } else if i == 22 {
      Cube(83, 4, 0x5cb0a9dc);
    } else if i == 23 {
      Cube(89, 4, 0x76f988da);
    }
  }

  lemma Constants3(i: nat)
    requires 24 <= i < 32
    ensures |F.K| == 64 == |PRIMES| && CubeRootBits(PRIMES[i], F.K[i])
  {
    hide CubeRootBits;
    if i == 24 {
      Cube(97, 4, 0x983e5152);
    } else if i == 25 {
      Cube(101, 4, 0xa831c66d);
    } else if i == 26 {
      Cube(103, 4, 0xb00327c8);
    } else if i == 27 {
      Cube(107, 4, 0xbf597fc7);
    } else if i == 28 {
      Cube(109, 4, 0xc6e00bf3);
    } else if i == 29 {
      Cube(113, 4, 0xd5a79147);
    } else if i == 30 {
      Cube(127, 5, 0x06ca6351);
    } else if i == 31 {
      Cube(131, 5, 0x14292967);
    }
  }

  lemma Constants4(i: nat)
    requires 32 <= i < 40
    ensures |F.K| == 64 == |PRIMES| && CubeRootBits(PRIMES[i], F.K[i])
  {
    hide CubeRootBits;
    if i == 32 {
      Cube(137, 5, 0x27b70a85);
    } else if i == 33 {
      Cube(139, 5, 0x2e1b2138);
    } else if i == 34 {
      Cube(149, 5, 0x4d2c6dfc);
    } else if i == 35 {
      Cube(151, 5, 0x53380d13);
    } else if i == 36 {
      Cube(157, 5, 0x650a7354);
    } else if i == 37 {
      Cube(163, 5, 0x766a0abb);
    } else if i == 38 {
      Cube(167, 5, 0x81c2c92e);
    } else if i == 39 {
      Cube(173, 5, 0x92722c85);
    }
  }

  lemma Constants5(i: nat)
    requires 40 <= i < 48
    ensures |F.K| == 64 == |PRIMES| && CubeRootBits(PRIMES[i], F.K[i])
  {
    hide CubeRootBits;
    if i == 40 {
      Cube(179, 5, 0xa2bfe8a1);
    } else if i == 41 {
      Cube(181, 5, 0xa81a664b);
    } else if i == 42 {
      Cube(191, 5, 0xc24b8b70);
    } else if i == 43 {
      Cube(193, 5, 0xc76c51a3);
    } else if i == 44 {
      Cube(197, 5, 0xd192e819);
    } else if i == 45 {
      Cube(199, 5, 0xd6990624);
    } else if i == 46 {
      Cube(211, 5, 0xf40e3585);
    } else if i == 47 {
      Cube(223, 6, 0x106aa070);
    }
  }

  lemma Constants6(i: nat)
    requires 48 <= i < 56
    ensures |F.K| == 64 == |PRIMES| && CubeRootBits(PRIMES[i], F.K[i])
  {
    hide CubeRootBits;
    if i == 48 {
      Cube(227, 6, 0x19a4c116);
    } else if i == 49 {
      Cube(229, 6, 0x1e376c08);
    } else if i == 50 {
      Cube(233, 6, 0x2748774c);
    } else if i == 51 {
      Cube(239, 6, 0x34b0bcb5);
    } else if i == 52 {
      Cube(241, 6, 0x391c0cb3);
    } else if i == 53 {
      Cube(251, 6, 0x4ed8aa4a);
    } else if i == 54 {
      Cube(257, 6, 0x5b9cca4f);
    } else if i == 55 {
      Cube(263, 6, 0x682e6ff3);
    }
  }

  lemma Constants7(i: nat)
    requires 56 <= i < 64
    ensures |F.K| == 64 == |PRIMES| && CubeRootBits(PRIMES[i], F.K[i])
  {
    hide CubeRootBits;
    if i == 56 {
      Cube(269, 6, 0x748f82ee);
    } else if i == 57 {
      Cube(271, 6, 0x78a5636f);
    } else if i == 58 {
      Cube(277, 6, 0x84c87814);
    } else if i == 59 {
      Cube(281, 6, 0x8cc70208);
    } else if i == 60 {
      Cube(283, 6, 0x90befffa);
    } else if i == 61 {
      Cube(293, 6, 0xa4506ceb);
    } else if i == 62 {
      Cube(307, 6, 0xbef9a3f7);
    } else if i == 63 {
      Cube(311, 6, 0xc67178f2);
    }
  }

  /** The round constants, section 4.2.2. */
  lemma RoundConstants(i: nat)
    requires i < 64
    ensures |F.K| == 64 == |PRIMES| && CubeRootBits(PRIMES[i], F.K[i])
  {
    hide CubeRootBits;
    if i < 8 { Constants0(i); } else if i < 16 { Constants1(i); } else if i < 24 { Constants2(i); }
    else if i < 32 { Constants3(i); } else if i < 40 { Constants4(i); } else if i < 48 { Constants5(i); }
    else if i < 56 { Constants6(i); } else { Constants7(i); }
  }

  lemma Square(p: nat, r: nat, k: word)
    requires SquareRoot(p, r * TWO_32 + k)
    ensures SquareRootBits(p, k)
  {
  }

  /** The initial hash value, section 5.3.3. */
  lemma InitialValue()
    ensures var h := F.INITIAL;
            && |PRIMES| == 64
            && SquareRootBits(PRIMES[0], h.a) && SquareRootBits(PRIMES[1], h.b) && SquareRootBits(PRIMES[2], h.c)
            && SquareRootBits(PRIMES[3], h.d) && SquareRootBits(PRIMES[4], h.e) && SquareRootBits(PRIMES[5], h.f)
            && SquareRootBits(PRIMES[6], h.g) && SquareRootBits(PRIMES[7], h.h)
  {
    hide SquareRootBits;
    Square(2, 1, 0x6a09e667);
    Square(3, 1, 0xbb67ae85);
    Square(5, 2, 0x3c6ef372);
    Square(7, 2, 0xa54ff53a);
    Square(11, 3, 0x510e527f);
    Square(13, 3, 0x9b05688c);
    Square(17, 4, 0x1f83d9ab);
    Square(19, 4, 0x5be0cd19);
  }
}
