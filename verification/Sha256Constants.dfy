/** The constants of SHA-256 by their definition in FIPS 180-4: section 4.2.2, the first 32 bits of the
    fractional parts of the cube roots of the first 64 primes, and section 5.3.3, of the square roots of
    the first eight. */
module Sha256Constants {
  import opened Sha256Spec

  // ---- the first 64 primes

  const P_ROW0: seq<nat> := [2, 3, 5, 7, 11, 13, 17, 19]
  const P_ROW1: seq<nat> := [23, 29, 31, 37, 41, 43, 47, 53]
  const P_ROW2: seq<nat> := [59, 61, 67, 71, 73, 79, 83, 89]
  const P_ROW3: seq<nat> := [97, 101, 103, 107, 109, 113, 127, 131]
  const P_ROW4: seq<nat> := [137, 139, 149, 151, 157, 163, 167, 173]
  const P_ROW5: seq<nat> := [179, 181, 191, 193, 197, 199, 211, 223]
  const P_ROW6: seq<nat> := [227, 229, 233, 239, 241, 251, 257, 263]
  const P_ROW7: seq<nat> := [269, 271, 277, 281, 283, 293, 307, 311]

  function PrimeRow(r: nat): (row: seq<nat>)
    requires r < 8
    ensures |row| == 8
  {
    match r
    case 0 => P_ROW0
    case 1 => P_ROW1
    case 2 => P_ROW2
    case 3 => P_ROW3
    case 4 => P_ROW4
    case 5 => P_ROW5
    case 6 => P_ROW6
    case 7 => P_ROW7
  }

  function Prime(t: nat): nat
    requires t < 64
  {
    PrimeRow(t / 8)[t % 8]
  }

  ghost predicate IsPrime(n: nat) {
    n >= 2 && forall d | 2 <= d < n :: n % d != 0
  }

  /** None of the numbers up to 18 divides `n`, unless it is `n`. */
  predicate NoSmallDivisor(n: nat) {
    && (n > 2 ==> n % 2 != 0) && (n > 3 ==> n % 3 != 0) && (n > 4 ==> n % 4 != 0) && (n > 5 ==> n % 5 != 0)
    && (n > 6 ==> n % 6 != 0) && (n > 7 ==> n % 7 != 0) && (n > 8 ==> n % 8 != 0) && (n > 9 ==> n % 9 != 0)
    && (n > 10 ==> n % 10 != 0) && (n > 11 ==> n % 11 != 0) && (n > 12 ==> n % 12 != 0) && (n > 13 ==> n % 13 != 0)
    && (n > 14 ==> n % 14 != 0) && (n > 15 ==> n % 15 != 0) && (n > 16 ==> n % 16 != 0) && (n > 17 ==> n % 17 != 0)
    && (n > 18 ==> n % 18 != 0)
  }

  lemma SmallDivisorsFound(n: nat, d: nat)
    requires NoSmallDivisor(n) && 2 <= d < 19 && d < n
    ensures n % d != 0
  {
  }

  lemma SmallDivisorsSuffice(n: nat)
    requires 2 <= n < 361 && NoSmallDivisor(n)
    ensures IsPrime(n)
  {
    forall d | 2 <= d < n
      ensures n % d != 0
    {
      if n % d == 0 {
        var e := n / d;
        assert n == d * e;
        Cofactor(n, d, e);
        SmallDivisorsFound(n, if d < 19 then d else e);
      }
    }
  }

  /** Of two factors of a number below 361 one is below 19. */
  lemma Cofactor(n: nat, d: nat, e: nat)
    requires 2 <= d < n < 361 && n == d * e
    ensures 2 <= e < n && n % e == 0 && (d < 19 || e < 19)
  {
    assert e != 0 && e != 1;
    if e > 0 {
      MultipleIsDivisible(d, e);
    }
    if d >= 19 && e >= 19 {
      ProductGrows(19, d, 19, e);
    }
    ProductGrows(2, d, e, e);
  }

  lemma ProductGrows(a: nat, b: nat, c: nat, d: nat)
    requires a <= b && c <= d
    ensures a * c <= b * d
  {
    assert b * d - a * c == (b - a) * d + a * (d - c);
  }

  lemma MultipleIsDivisible(d: nat, e: nat)
    requires e > 0
    ensures d * e % e == 0
  {
    QuotientIs(d * e, e, d);
  }

  lemma QuotientIs(x: nat, e: nat, d: nat)
    requires e > 0 && x == d * e
    ensures x % e == 0
  {
    var q := x / e;
    assert x == q * e + x % e;
    if q < d {
      ProductGrows(q + 1, d, e, e);
    } else {
      ProductGrows(d, q, e, e);
    }
  }

  lemma PrimesBySmallDivisors(n: nat)
    requires 2 <= n < 361
    ensures IsPrime(n) <==> NoSmallDivisor(n)
  {
    if NoSmallDivisor(n) {
      SmallDivisorsSuffice(n);
    }
  }

  /** Every number from `lo` up to, but not including, `hi` has a small divisor. */
  predicate Gap(lo: nat, hi: nat)
    decreases hi - lo
  {
    lo >= hi || (!NoSmallDivisor(lo) && Gap(lo + 1, hi))
  }

  /** `p` has no small divisor, and `q` is the next number that may have none. */
  predicate Successive(p: nat, q: nat) {
    p < q && NoSmallDivisor(p) && Gap(p + 1, q)
  }

  lemma {:induction false} GapHasNoPrime(lo: nat, hi: nat, n: nat)
    requires Gap(lo, hi) && 2 <= lo <= n < hi < 361
    ensures !IsPrime(n)
    decreases hi - lo
  {
    if lo < n {
      GapHasNoPrime(lo + 1, hi, n);
    } else {
      PrimesBySmallDivisors(n);
    }
  }

  lemma Successors0()
    ensures Successive(2, 3)
    ensures Successive(3, 5)
    ensures Successive(5, 7)
    ensures Successive(7, 11)
  {
  }

  lemma Successors1()
    ensures Successive(11, 13)
    ensures Successive(13, 17)
    ensures Successive(17, 19)
    ensures Successive(19, 23)
  {
  }

  lemma Successors2()
    ensures Successive(23, 29)
    ensures Successive(29, 31)
    ensures Successive(31, 37)
    ensures Successive(37, 41)
  {
  }

  lemma Successors3()
    ensures Successive(41, 43)
    ensures Successive(43, 47)
    ensures Successive(47, 53)
    ensures Successive(53, 59)
  {
  }

  lemma Successors4()
    ensures Successive(59, 61)
    ensures Successive(61, 67)
    ensures Successive(67, 71)
    ensures Successive(71, 73)
  {
  }

  lemma Successors5()
    ensures Successive(73, 79)
    ensures Successive(79, 83)
    ensures Successive(83, 89)
    ensures Successive(89, 97)
  {
  }

  lemma Successors6()
    ensures Successive(97, 101)
    ensures Successive(101, 103)
    ensures Successive(103, 107)
    ensures Successive(107, 109)
  {
  }

  lemma Successors7()
    ensures Successive(109, 113)
    ensures Successive(113, 127)
    ensures Successive(127, 131)
    ensures Successive(131, 137)
  {
  }

  lemma Successors8()
    ensures Successive(137, 139)
    ensures Successive(139, 149)
    ensures Successive(149, 151)
    ensures Successive(151, 157)
  {
  }

  lemma Successors9()
    ensures Successive(157, 163)
    ensures Successive(163, 167)
    ensures Successive(167, 173)
    ensures Successive(173, 179)
  {
  }

  lemma Successors10()
    ensures Successive(179, 181)
    ensures Successive(181, 191)
    ensures Successive(191, 193)
    ensures Successive(193, 197)
  {
  }

  lemma Successors11()
    ensures Successive(197, 199)
    ensures Successive(199, 211)
    ensures Successive(211, 223)
    ensures Successive(223, 227)
  {
  }

  lemma Successors12()
    ensures Successive(227, 229)
    ensures Successive(229, 233)
    ensures Successive(233, 239)
    ensures Successive(239, 241)
  {
  }

  lemma Successors13()
    ensures Successive(241, 251)
    ensures Successive(251, 257)
    ensures Successive(257, 263)
    ensures Successive(263, 269)
  {
  }

  lemma Successors14()
    ensures Successive(269, 271)
    ensures Successive(271, 277)
    ensures Successive(277, 281)
    ensures Successive(281, 283)
  {
  }

  lemma Successors15()
    ensures Successive(283, 293)
    ensures Successive(293, 307)
    ensures Successive(307, 311)
    ensures NoSmallDivisor(311)
  {
  }

  ghost predicate RowFollows(row: seq<nat>, next: nat) {
    |row| == 8 && (forall i | 0 <= i < 7 :: Successive(row[i], row[i + 1])) && Successive(row[7], next)
  }

  lemma Row0Follows()
    ensures RowFollows(P_ROW0, 23)
  {
    Successors0();
    Successors1();
    assert P_ROW0[0] == 2;
    assert P_ROW0[1] == 3;
    assert P_ROW0[2] == 5;
    assert P_ROW0[3] == 7;
    assert P_ROW0[4] == 11;
    assert P_ROW0[5] == 13;
    assert P_ROW0[6] == 17;
    assert P_ROW0[7] == 19;
  }

  lemma Row1Follows()
    ensures RowFollows(P_ROW1, 59)
  {
    Successors2();
    Successors3();
    assert P_ROW1[0] == 23;
    assert P_ROW1[1] == 29;
    assert P_ROW1[2] == 31;
    assert P_ROW1[3] == 37;
    assert P_ROW1[4] == 41;
    assert P_ROW1[5] == 43;
    assert P_ROW1[6] == 47;
    assert P_ROW1[7] == 53;
  }

  lemma Row2Follows()
    ensures RowFollows(P_ROW2, 97)
  {
    Successors4();
    Successors5();
    assert P_ROW2[0] == 59;
    assert P_ROW2[1] == 61;
    assert P_ROW2[2] == 67;
    assert P_ROW2[3] == 71;
    assert P_ROW2[4] == 73;
    assert P_ROW2[5] == 79;
    assert P_ROW2[6] == 83;
    assert P_ROW2[7] == 89;
  }

  lemma Row3Follows()
    ensures RowFollows(P_ROW3, 137)
  {
    Successors6();
    Successors7();
    assert P_ROW3[0] == 97;
    assert P_ROW3[1] == 101;
    assert P_ROW3[2] == 103;
    assert P_ROW3[3] == 107;
    assert P_ROW3[4] == 109;
    assert P_ROW3[5] == 113;
    assert P_ROW3[6] == 127;
    assert P_ROW3[7] == 131;
  }

  lemma Row4Follows()
    ensures RowFollows(P_ROW4, 179)
  {
    Successors8();
    Successors9();
    assert P_ROW4[0] == 137;
    assert P_ROW4[1] == 139;
    assert P_ROW4[2] == 149;
    assert P_ROW4[3] == 151;
    assert P_ROW4[4] == 157;
    assert P_ROW4[5] == 163;
    assert P_ROW4[6] == 167;
    assert P_ROW4[7] == 173;
  }

  lemma Row5Follows()
    ensures RowFollows(P_ROW5, 227)
  {
    Successors10();
    Successors11();
    assert P_ROW5[0] == 179;
    assert P_ROW5[1] == 181;
    assert P_ROW5[2] == 191;
    assert P_ROW5[3] == 193;
    assert P_ROW5[4] == 197;
    assert P_ROW5[5] == 199;
    assert P_ROW5[6] == 211;
    assert P_ROW5[7] == 223;
  }

  lemma Row6Follows()
    ensures RowFollows(P_ROW6, 269)
  {
    Successors12();
    Successors13();
    assert P_ROW6[0] == 227;
    assert P_ROW6[1] == 229;
    assert P_ROW6[2] == 233;
    assert P_ROW6[3] == 239;
    assert P_ROW6[4] == 241;
    assert P_ROW6[5] == 251;
    assert P_ROW6[6] == 257;
    assert P_ROW6[7] == 263;
  }

  lemma Row7Follows()
    ensures RowFollows(P_ROW7, 313)
  {
    Successors14();
    Successors15();
    assert P_ROW7[0] == 269;
    assert P_ROW7[1] == 271;
    assert P_ROW7[2] == 277;
    assert P_ROW7[3] == 281;
    assert P_ROW7[4] == 283;
    assert P_ROW7[5] == 293;
    assert P_ROW7[6] == 307;
    assert P_ROW7[7] == 311;
  }

  /** The first number of the row after row `r`; 313 is the 65th prime. */
  function NextRowStart(r: nat): nat
    requires r < 8
  {
    if r < 7 then PrimeRow(r + 1)[0] else 313
  }

  lemma RowsFollow(r: nat)
    requires r < 8
    ensures RowFollows(PrimeRow(r), NextRowStart(r))
  {
    match r
    case 0 => Row0Follows();
    case 1 => Row1Follows();
    case 2 => Row2Follows();
    case 3 => Row3Follows();
    case 4 => Row4Follows();
    case 5 => Row5Follows();
    case 6 => Row6Follows();
    case 7 => Row7Follows();
  }

  /** `Prime(t)` is the t-th prime, counted from 0. */
  lemma PrimesInOrder(t: nat, n: nat)
    requires t < 64
    ensures IsPrime(Prime(t)) && Prime(0) == 2
    ensures t < 63 ==> Prime(t) < Prime(t + 1) && (Prime(t) < n < Prime(t + 1) ==> !IsPrime(n))
  {
    SuccessorOf(t);
    PrimesBelow(t);
    SmallDivisorsSuffice(Prime(t));
    if t < 63 {
      PrimesBelow(t + 1);
      if Prime(t) < n < Prime(t + 1) {
        GapHasNoPrime(Prime(t) + 1, Prime(t + 1), n);
      }
    }
  }

  lemma SuccessorOf(t: nat)
    requires t < 64
    ensures NoSmallDivisor(Prime(t)) && (t < 63 ==> Successive(Prime(t), Prime(t + 1)))
  {
    RowsFollow(t / 8);
    if t < 63 {
      NextInTable(t);
    }
    assert t % 8 < 7 ==> Successive(PrimeRow(t / 8)[t % 8], PrimeRow(t / 8)[t % 8 + 1]);
  }

  lemma NextInTable(t: nat)
    requires t < 63
    ensures Prime(t + 1) == if t % 8 < 7 then PrimeRow(t / 8)[t % 8 + 1] else PrimeRow(t / 8 + 1)[0]
  {
    NextIndex(t);
  }

  lemma NextIndex(t: nat)
    ensures (t + 1) / 8 == (if t % 8 < 7 then t / 8 else t / 8 + 1)
    ensures (t + 1) % 8 == (if t % 8 < 7 then t % 8 + 1 else 0)
  {
  }

  lemma PrimesBelow(t: nat)
    requires t < 64
    ensures 2 <= Prime(t) < 361
  {
    RowBelow(t / 8);
  }

  lemma RowBelow(r: nat)
    requires r < 8
    ensures forall i | 0 <= i < 8 :: 2 <= PrimeRow(r)[i] < 361
  {
  }

  // ---- section 4.2.2: cube roots

  /** `k` is the first 32 bits of the fraction of the cube root of `p`. */
  ghost predicate HasCubeRoot(k: Word, p: nat) {
    exists root :: IsCubeRootFraction(root, k, p)
  }

  /** The same with the whole part of the root. */
  predicate IsCubeRootFraction(root: nat, k: Word, p: nat) {
    var x := root * 0x1_0000_0000 + k as nat;
    x * x * x <= p * 0x1_0000_0000_0000_0000_0000_0000 < (x + 1) * (x + 1) * (x + 1)
  }

  lemma CubeRoots0()
    ensures IsCubeRootFraction(1, K_ROW0[0], P_ROW0[0])
    ensures IsCubeRootFraction(1, K_ROW0[1], P_ROW0[1])
    ensures IsCubeRootFraction(1, K_ROW0[2], P_ROW0[2])
    ensures IsCubeRootFraction(1, K_ROW0[3], P_ROW0[3])
  {
  }

  lemma CubeRoots1()
    ensures IsCubeRootFraction(2, K_ROW0[4], P_ROW0[4])
    ensures IsCubeRootFraction(2, K_ROW0[5], P_ROW0[5])
    ensures IsCubeRootFraction(2, K_ROW0[6], P_ROW0[6])
    ensures IsCubeRootFraction(2, K_ROW0[7], P_ROW0[7])
  {
  }

  lemma CubeRoots2()
    ensures IsCubeRootFraction(2, K_ROW1[0], P_ROW1[0])
    ensures IsCubeRootFraction(3, K_ROW1[1], P_ROW1[1])
    ensures IsCubeRootFraction(3, K_ROW1[2], P_ROW1[2])
    ensures IsCubeRootFraction(3, K_ROW1[3], P_ROW1[3])
  {
  }

  lemma CubeRoots3()
    ensures IsCubeRootFraction(3, K_ROW1[4], P_ROW1[4])
    ensures IsCubeRootFraction(3, K_ROW1[5], P_ROW1[5])
    ensures IsCubeRootFraction(3, K_ROW1[6], P_ROW1[6])
    ensures IsCubeRootFraction(3, K_ROW1[7], P_ROW1[7])
  {
  }

  lemma CubeRoots4()
    ensures IsCubeRootFraction(3, K_ROW2[0], P_ROW2[0])
    ensures IsCubeRootFraction(3, K_ROW2[1], P_ROW2[1])
    ensures IsCubeRootFraction(4, K_ROW2[2], P_ROW2[2])
    ensures IsCubeRootFraction(4, K_ROW2[3], P_ROW2[3])
  {
  }

  lemma CubeRoots5()
    ensures IsCubeRootFraction(4, K_ROW2[4], P_ROW2[4])
    ensures IsCubeRootFraction(4, K_ROW2[5], P_ROW2[5])
    ensures IsCubeRootFraction(4, K_ROW2[6], P_ROW2[6])
    ensures IsCubeRootFraction(4, K_ROW2[7], P_ROW2[7])
  {
  }

  lemma CubeRoots6()
    ensures IsCubeRootFraction(4, K_ROW3[0], P_ROW3[0])
    ensures IsCubeRootFraction(4, K_ROW3[1], P_ROW3[1])
    ensures IsCubeRootFraction(4, K_ROW3[2], P_ROW3[2])
    ensures IsCubeRootFraction(4, K_ROW3[3], P_ROW3[3])
  {
  }

  lemma CubeRoots7()
    ensures IsCubeRootFraction(4, K_ROW3[4], P_ROW3[4])
    ensures IsCubeRootFraction(4, K_ROW3[5], P_ROW3[5])
    ensures IsCubeRootFraction(5, K_ROW3[6], P_ROW3[6])
    ensures IsCubeRootFraction(5, K_ROW3[7], P_ROW3[7])
  {
  }

  lemma CubeRoots8()
    ensures IsCubeRootFraction(5, K_ROW4[0], P_ROW4[0])
    ensures IsCubeRootFraction(5, K_ROW4[1], P_ROW4[1])
    ensures IsCubeRootFraction(5, K_ROW4[2], P_ROW4[2])
    ensures IsCubeRootFraction(5, K_ROW4[3], P_ROW4[3])
  {
  }

  lemma CubeRoots9()
    ensures IsCubeRootFraction(5, K_ROW4[4], P_ROW4[4])
    ensures IsCubeRootFraction(5, K_ROW4[5], P_ROW4[5])
    ensures IsCubeRootFraction(5, K_ROW4[6], P_ROW4[6])
    ensures IsCubeRootFraction(5, K_ROW4[7], P_ROW4[7])
  {
  }

  lemma CubeRoots10()
    ensures IsCubeRootFraction(5, K_ROW5[0], P_ROW5[0])
    ensures IsCubeRootFraction(5, K_ROW5[1], P_ROW5[1])
    ensures IsCubeRootFraction(5, K_ROW5[2], P_ROW5[2])
    ensures IsCubeRootFraction(5, K_ROW5[3], P_ROW5[3])
  {
  }

  lemma CubeRoots11()
    ensures IsCubeRootFraction(5, K_ROW5[4], P_ROW5[4])
    ensures IsCubeRootFraction(5, K_ROW5[5], P_ROW5[5])
    ensures IsCubeRootFraction(5, K_ROW5[6], P_ROW5[6])
    ensures IsCubeRootFraction(6, K_ROW5[7], P_ROW5[7])
  {
  }

  lemma CubeRoots12()
    ensures IsCubeRootFraction(6, K_ROW6[0], P_ROW6[0])
    ensures IsCubeRootFraction(6, K_ROW6[1], P_ROW6[1])
    ensures IsCubeRootFraction(6, K_ROW6[2], P_ROW6[2])
    ensures IsCubeRootFraction(6, K_ROW6[3], P_ROW6[3])
  {
  }

  lemma CubeRoots13()
    ensures IsCubeRootFraction(6, K_ROW6[4], P_ROW6[4])
    ensures IsCubeRootFraction(6, K_ROW6[5], P_ROW6[5])
    ensures IsCubeRootFraction(6, K_ROW6[6], P_ROW6[6])
    ensures IsCubeRootFraction(6, K_ROW6[7], P_ROW6[7])
  {
  }

  lemma CubeRoots14()
    ensures IsCubeRootFraction(6, K_ROW7[0], P_ROW7[0])
    ensures IsCubeRootFraction(6, K_ROW7[1], P_ROW7[1])
    ensures IsCubeRootFraction(6, K_ROW7[2], P_ROW7[2])
    ensures IsCubeRootFraction(6, K_ROW7[3], P_ROW7[3])
  {
  }

  lemma CubeRoots15()
    ensures IsCubeRootFraction(6, K_ROW7[4], P_ROW7[4])
    ensures IsCubeRootFraction(6, K_ROW7[5], P_ROW7[5])
    ensures IsCubeRootFraction(6, K_ROW7[6], P_ROW7[6])
    ensures IsCubeRootFraction(6, K_ROW7[7], P_ROW7[7])
  {
  }

  ghost predicate RowHasCubeRoots(ks: seq<Word>, ps: seq<nat>) {
    |ks| == |ps| == 8 && forall i | 0 <= i < 8 :: HasCubeRoot(ks[i], ps[i])
  }

  lemma Row0HasCubeRoots()
    ensures RowHasCubeRoots(K_ROW0, P_ROW0)
  {
    CubeRoots0();
    CubeRoots1();
    assert HasCubeRoot(K_ROW0[0], P_ROW0[0]);
    assert HasCubeRoot(K_ROW0[1], P_ROW0[1]);
    assert HasCubeRoot(K_ROW0[2], P_ROW0[2]);
    assert HasCubeRoot(K_ROW0[3], P_ROW0[3]);
    assert HasCubeRoot(K_ROW0[4], P_ROW0[4]);
    assert HasCubeRoot(K_ROW0[5], P_ROW0[5]);
    assert HasCubeRoot(K_ROW0[6], P_ROW0[6]);
    assert HasCubeRoot(K_ROW0[7], P_ROW0[7]);
  }

  lemma Row1HasCubeRoots()
    ensures RowHasCubeRoots(K_ROW1, P_ROW1)
  {
    CubeRoots2();
    CubeRoots3();
    assert HasCubeRoot(K_ROW1[0], P_ROW1[0]);
    assert HasCubeRoot(K_ROW1[1], P_ROW1[1]);
    assert HasCubeRoot(K_ROW1[2], P_ROW1[2]);
    assert HasCubeRoot(K_ROW1[3], P_ROW1[3]);
    assert HasCubeRoot(K_ROW1[4], P_ROW1[4]);
    assert HasCubeRoot(K_ROW1[5], P_ROW1[5]);
    assert HasCubeRoot(K_ROW1[6], P_ROW1[6]);
    assert HasCubeRoot(K_ROW1[7], P_ROW1[7]);
  }

  lemma Row2HasCubeRoots()
    ensures RowHasCubeRoots(K_ROW2, P_ROW2)
  {
    CubeRoots4();
    CubeRoots5();
    assert HasCubeRoot(K_ROW2[0], P_ROW2[0]);
    assert HasCubeRoot(K_ROW2[1], P_ROW2[1]);
    assert HasCubeRoot(K_ROW2[2], P_ROW2[2]);
    assert HasCubeRoot(K_ROW2[3], P_ROW2[3]);
    assert HasCubeRoot(K_ROW2[4], P_ROW2[4]);
    assert HasCubeRoot(K_ROW2[5], P_ROW2[5]);
    assert HasCubeRoot(K_ROW2[6], P_ROW2[6]);
    assert HasCubeRoot(K_ROW2[7], P_ROW2[7]);
  }

  lemma Row3HasCubeRoots()
    ensures RowHasCubeRoots(K_ROW3, P_ROW3)
  {
    CubeRoots6();
    CubeRoots7();
    assert HasCubeRoot(K_ROW3[0], P_ROW3[0]);
    assert HasCubeRoot(K_ROW3[1], P_ROW3[1]);
    assert HasCubeRoot(K_ROW3[2], P_ROW3[2]);
    assert HasCubeRoot(K_ROW3[3], P_ROW3[3]);
    assert HasCubeRoot(K_ROW3[4], P_ROW3[4]);
    assert HasCubeRoot(K_ROW3[5], P_ROW3[5]);
    assert HasCubeRoot(K_ROW3[6], P_ROW3[6]);
    assert HasCubeRoot(K_ROW3[7], P_ROW3[7]);
  }

  lemma Row4HasCubeRoots()
    ensures RowHasCubeRoots(K_ROW4, P_ROW4)
  {
    CubeRoots8();
    CubeRoots9();
    assert HasCubeRoot(K_ROW4[0], P_ROW4[0]);
    assert HasCubeRoot(K_ROW4[1], P_ROW4[1]);
    assert HasCubeRoot(K_ROW4[2], P_ROW4[2]);
    assert HasCubeRoot(K_ROW4[3], P_ROW4[3]);
    assert HasCubeRoot(K_ROW4[4], P_ROW4[4]);
    assert HasCubeRoot(K_ROW4[5], P_ROW4[5]);
    assert HasCubeRoot(K_ROW4[6], P_ROW4[6]);
    assert HasCubeRoot(K_ROW4[7], P_ROW4[7]);
  }

  lemma Row5HasCubeRoots()
    ensures RowHasCubeRoots(K_ROW5, P_ROW5)
  {
    CubeRoots10();
    CubeRoots11();
    assert HasCubeRoot(K_ROW5[0], P_ROW5[0]);
    assert HasCubeRoot(K_ROW5[1], P_ROW5[1]);
    assert HasCubeRoot(K_ROW5[2], P_ROW5[2]);
    assert HasCubeRoot(K_ROW5[3], P_ROW5[3]);
    assert HasCubeRoot(K_ROW5[4], P_ROW5[4]);
    assert HasCubeRoot(K_ROW5[5], P_ROW5[5]);
    assert HasCubeRoot(K_ROW5[6], P_ROW5[6]);
    assert HasCubeRoot(K_ROW5[7], P_ROW5[7]);
  }

  lemma Row6HasCubeRoots()
    ensures RowHasCubeRoots(K_ROW6, P_ROW6)
  {
    CubeRoots12();
    CubeRoots13();
    assert HasCubeRoot(K_ROW6[0], P_ROW6[0]);
    assert HasCubeRoot(K_ROW6[1], P_ROW6[1]);
    assert HasCubeRoot(K_ROW6[2], P_ROW6[2]);
    assert HasCubeRoot(K_ROW6[3], P_ROW6[3]);
    assert HasCubeRoot(K_ROW6[4], P_ROW6[4]);
    assert HasCubeRoot(K_ROW6[5], P_ROW6[5]);
    assert HasCubeRoot(K_ROW6[6], P_ROW6[6]);
    assert HasCubeRoot(K_ROW6[7], P_ROW6[7]);
  }

  lemma Row7HasCubeRoots()
    ensures RowHasCubeRoots(K_ROW7, P_ROW7)
  {
    CubeRoots14();
    CubeRoots15();
    assert HasCubeRoot(K_ROW7[0], P_ROW7[0]);
    assert HasCubeRoot(K_ROW7[1], P_ROW7[1]);
    assert HasCubeRoot(K_ROW7[2], P_ROW7[2]);
    assert HasCubeRoot(K_ROW7[3], P_ROW7[3]);
    assert HasCubeRoot(K_ROW7[4], P_ROW7[4]);
    assert HasCubeRoot(K_ROW7[5], P_ROW7[5]);
    assert HasCubeRoot(K_ROW7[6], P_ROW7[6]);
    assert HasCubeRoot(K_ROW7[7], P_ROW7[7]);
  }

  lemma RowsHaveCubeRoots(r: nat)
    requires r < 8
    ensures RowHasCubeRoots(KRow(r), PrimeRow(r))
  {
    match r
    case 0 => Row0HasCubeRoots();
    case 1 => Row1HasCubeRoots();
    case 2 => Row2HasCubeRoots();
    case 3 => Row3HasCubeRoots();
    case 4 => Row4HasCubeRoots();
    case 5 => Row5HasCubeRoots();
    case 6 => Row6HasCubeRoots();
    case 7 => Row7HasCubeRoots();
  }

  /** Every round constant is what section 4.2.2 says. */
  lemma ConstantsAreCubeRoots(t: nat)
    requires t < 64
    ensures HasCubeRoot(K(t), Prime(t))
  {
    RowsHaveCubeRoots(t / 8);
  }

  // ---- section 5.3.3: square roots

  predicate IsSquareRootFraction(root: nat, h: Word, p: nat) {
    var x := root * 0x1_0000_0000 + h as nat;
    x * x <= p * 0x1_0000_0000_0000_0000 < (x + 1) * (x + 1)
  }

  /** The initial hash value is what section 5.3.3 says. */
  lemma InitialValueIsSquareRoots()
    ensures IsSquareRootFraction(1, H0.a, P_ROW0[0])
    ensures IsSquareRootFraction(1, H0.b, P_ROW0[1])
    ensures IsSquareRootFraction(2, H0.c, P_ROW0[2])
    ensures IsSquareRootFraction(2, H0.d, P_ROW0[3])
    ensures IsSquareRootFraction(3, H0.e, P_ROW0[4])
    ensures IsSquareRootFraction(3, H0.f, P_ROW0[5])
    ensures IsSquareRootFraction(4, H0.g, P_ROW0[6])
    ensures IsSquareRootFraction(4, H0.h, P_ROW0[7])
  {
  }
}
