/** Where the constants of SHA-256 come from, as sections 4.2.2 and 5.3.3 of FIPS 180-4 say:
    they are the first 32 bits of the fractional parts of roots of the first primes. */
module ShaConstants {
  import opened Sha256

  const WORD: nat := 0x1_0000_0000

  const PRIMES_0: seq<nat> := [2, 3, 5, 7, 11, 13, 17, 19]
  const PRIMES_1: seq<nat> := [23, 29, 31, 37, 41, 43, 47, 53]
  const PRIMES_2: seq<nat> := [59, 61, 67, 71, 73, 79, 83, 89]
  const PRIMES_3: seq<nat> := [97, 101, 103, 107, 109, 113, 127, 131]
  const PRIMES_4: seq<nat> := [137, 139, 149, 151, 157, 163, 167, 173]
  const PRIMES_5: seq<nat> := [179, 181, 191, 193, 197, 199, 211, 223]
  const PRIMES_6: seq<nat> := [227, 229, 233, 239, 241, 251, 257, 263]
  const PRIMES_7: seq<nat> := [269, 271, 277, 281, 283, 293, 307, 311]

  /** The first 64 primes. */
  const PRIMES: seq<nat> :=
    PRIMES_0 + PRIMES_1 + PRIMES_2 + PRIMES_3 + PRIMES_4 + PRIMES_5 + PRIMES_6 + PRIMES_7

  /** `r` over 2^32 is the cube root of `p`, rounded down. */
  ghost predicate CubeRoot(p: nat, r: nat) {
    r * r * r <= p * WORD * WORD * WORD < (r + 1) * (r + 1) * (r + 1)
  }

  ghost predicate SquareRoot(p: nat, r: nat) {
    r * r <= p * WORD * WORD < (r + 1) * (r + 1)
  }

  /** `k` is the fractional part of the root, in units of 2^-32. */
  ghost predicate CubeRootBits(p: nat, k: bv32) {
    exists w: nat :: CubeRoot(p, w * WORD + k as nat)
  }

  ghost predicate SquareRootBits(p: nat, k: bv32) {
    exists w: nat :: SquareRoot(p, w * WORD + k as nat)
  }

  lemma CubeRootIs(p: nat, w: nat, k: bv32)
    requires CubeRoot(p, w * WORD + k as nat)
    ensures CubeRootBits(p, k)
  {}

  lemma SquareRootIs(p: nat, w: nat, k: bv32)
    requires SquareRoot(p, w * WORD + k as nat)
    ensures SquareRootBits(p, k)
  {}

  /** Section 5.3.3: the initial hash value is from the square roots of the first eight primes. */
  lemma InitialIsSquareRoots()
    ensures SquareRootBits(2, INITIAL.a)
    ensures SquareRootBits(3, INITIAL.b)
    ensures SquareRootBits(5, INITIAL.c)
    ensures SquareRootBits(7, INITIAL.d)
    ensures SquareRootBits(11, INITIAL.e)
    ensures SquareRootBits(13, INITIAL.f)
    ensures SquareRootBits(17, INITIAL.g)
    ensures SquareRootBits(19, INITIAL.h)
  {
    SquareRootIs(2, 1, INITIAL.a);
    SquareRootIs(3, 1, INITIAL.b);
    SquareRootIs(5, 2, INITIAL.c);
    SquareRootIs(7, 2, INITIAL.d);
    SquareRootIs(11, 3, INITIAL.e);
    SquareRootIs(13, 3, INITIAL.f);
    SquareRootIs(17, 4, INITIAL.g);
    SquareRootIs(19, 4, INITIAL.h);
  }

  lemma CubeRoots0(j: nat)
    requires j < 8
    ensures CubeRootBits(PRIMES_0[j], K_0[j])
  {
    CubeRootIs(2, 1, 0x428a2f98);
    CubeRootIs(3, 1, 0x71374491);
    CubeRootIs(5, 1, 0xb5c0fbcf);
    CubeRootIs(7, 1, 0xe9b5dba5);
    CubeRootIs(11, 2, 0x3956c25b);
    CubeRootIs(13, 2, 0x59f111f1);
    CubeRootIs(17, 2, 0x923f82a4);
    CubeRootIs(19, 2, 0xab1c5ed5);
  }

  lemma CubeRoots1(j: nat)
    requires j < 8
    ensures CubeRootBits(PRIMES_1[j], K_1[j])
  {
    CubeRootIs(23, 2, 0xd807aa98);
    CubeRootIs(29, 3, 0x12835b01);
    CubeRootIs(31, 3, 0x243185be);
    CubeRootIs(37, 3, 0x550c7dc3);
    CubeRootIs(41, 3, 0x72be5d74);
    CubeRootIs(43, 3, 0x80deb1fe);
    CubeRootIs(47, 3, 0x9bdc06a7);
    CubeRootIs(53, 3, 0xc19bf174);
  }

  lemma CubeRoots2(j: nat)
    requires j < 8
    ensures CubeRootBits(PRIMES_2[j], K_2[j])
  {
    CubeRootIs(59, 3, 0xe49b69c1);
    CubeRootIs(61, 3, 0xefbe4786);
    CubeRootIs(67, 4, 0x0fc19dc6);
    CubeRootIs(71, 4, 0x240ca1cc);
    CubeRootIs(73, 4, 0x2de92c6f);
    CubeRootIs(79, 4, 0x4a7484aa);
    CubeRootIs(83, 4, 0x5cb0a9dc);
    CubeRootIs(89, 4, 0x76f988da);
  }

  lemma CubeRoots3(j: nat)
    requires j < 8
    ensures CubeRootBits(PRIMES_3[j], K_3[j])
  {
    CubeRootIs(97, 4, 0x983e5152);
    CubeRootIs(101, 4, 0xa831c66d);
    CubeRootIs(103, 4, 0xb00327c8);
    CubeRootIs(107, 4, 0xbf597fc7);
    CubeRootIs(109, 4, 0xc6e00bf3);
    CubeRootIs(113, 4, 0xd5a79147);
    CubeRootIs(127, 5, 0x06ca6351);
    CubeRootIs(131, 5, 0x14292967);
  }

  lemma CubeRoots4(j: nat)
    requires j < 8
    ensures CubeRootBits(PRIMES_4[j], K_4[j])
  {
    CubeRootIs(137, 5, 0x27b70a85);
    CubeRootIs(139, 5, 0x2e1b2138);
    CubeRootIs(149, 5, 0x4d2c6dfc);
    CubeRootIs(151, 5, 0x53380d13);
    CubeRootIs(157, 5, 0x650a7354);
    CubeRootIs(163, 5, 0x766a0abb);
    CubeRootIs(167, 5, 0x81c2c92e);
    CubeRootIs(173, 5, 0x92722c85);
  }

  lemma CubeRoots5(j: nat)
    requires j < 8
    ensures CubeRootBits(PRIMES_5[j], K_5[j])
  {
    CubeRootIs(179, 5, 0xa2bfe8a1);
    CubeRootIs(181, 5, 0xa81a664b);
    CubeRootIs(191, 5, 0xc24b8b70);
    CubeRootIs(193, 5, 0xc76c51a3);
    CubeRootIs(197, 5, 0xd192e819);
    CubeRootIs(199, 5, 0xd6990624);
    CubeRootIs(211, 5, 0xf40e3585);
    CubeRootIs(223, 6, 0x106aa070);
  }

  lemma CubeRoots6(j: nat)
    requires j < 8
    ensures CubeRootBits(PRIMES_6[j], K_6[j])
  {
    CubeRootIs(227, 6, 0x19a4c116);
    CubeRootIs(229, 6, 0x1e376c08);
    CubeRootIs(233, 6, 0x2748774c);
    CubeRootIs(239, 6, 0x34b0bcb5);
    CubeRootIs(241, 6, 0x391c0cb3);
    CubeRootIs(251, 6, 0x4ed8aa4a);
    CubeRootIs(257, 6, 0x5b9cca4f);
    CubeRootIs(263, 6, 0x682e6ff3);
  }

  lemma CubeRoots7(j: nat)
    requires j < 8
    ensures CubeRootBits(PRIMES_7[j], K_7[j])
  {
    CubeRootIs(269, 6, 0x748f82ee);
    CubeRootIs(271, 6, 0x78a5636f);
    CubeRootIs(277, 6, 0x84c87814);
    CubeRootIs(281, 6, 0x8cc70208);
    CubeRootIs(283, 6, 0x90befffa);
    CubeRootIs(293, 6, 0xa4506ceb);
    CubeRootIs(307, 6, 0xbef9a3f7);
    CubeRootIs(311, 6, 0xc67178f2);
  }

  /** Where an element of eight rows of eight stands. */
  lemma RowAt<T>(a: seq<T>, b: seq<T>, c: seq<T>, d: seq<T>, e: seq<T>, f: seq<T>, g: seq<T>, h: seq<T>, t: nat)
    requires |a| == |b| == |c| == |d| == |e| == |f| == |g| == |h| == 8 && t < 64
    ensures var all, j := a + b + c + d + e + f + g + h, t % 8;
      all[t] == match t / 8
                case 0 => a[j] case 1 => b[j] case 2 => c[j] case 3 => d[j]
                case 4 => e[j] case 5 => f[j] case 6 => g[j] case _ => h[j]
  {}

  /** Section 4.2.2: every round constant is from the cube root of its prime. */
  lemma ConstantsAreCubeRoots(t: nat)
    requires t < 64
    ensures CubeRootBits(PRIMES[t], RoundConstant(t))
  {
    hide CubeRootBits;
    RowAt(PRIMES_0, PRIMES_1, PRIMES_2, PRIMES_3, PRIMES_4, PRIMES_5, PRIMES_6, PRIMES_7, t);
    RowAt(K_0, K_1, K_2, K_3, K_4, K_5, K_6, K_7, t);
    match t / 8
    case 0 => CubeRoots0(t % 8);
    case 1 => CubeRoots1(t % 8);
    case 2 => CubeRoots2(t % 8);
    case 3 => CubeRoots3(t % 8);
    case 4 => CubeRoots4(t % 8);
    case 5 => CubeRoots5(t % 8);
    case 6 => CubeRoots6(t % 8);
    case _ => CubeRoots7(t % 8);
  }

  // ----- a published value -----

  /** The first round on the one-block message "abc", as worked out in appendix B.1 of FIPS
      180-2: the working variables a and e after round 0. */
  lemma FirstRoundOfAbc()
    ensures Round(INITIAL, RoundConstant(0), 0x61626380) ==
      Words(0x5d6aebcd, INITIAL.a, INITIAL.b, INITIAL.c, 0xfa2a4622, INITIAL.e, INITIAL.f, INITIAL.g)
  {
    assert Rotr(0x510e527f, 6) == 0xfd443949;
    assert Rotr(0x510e527f, 11) == 0x4fea21ca;
    assert Rotr(0x510e527f, 25) == 0x87293fa8;
    assert BigSigma1(0x510e527f) == 0x3587272b by { hide Rotr; }
    assert Rotr(0x6a09e667, 2) == 0xda827999;
    assert Rotr(0x6a09e667, 13) == 0x333b504f;
    assert Rotr(0x6a09e667, 22) == 0x27999da8;
    assert BigSigma0(0x6a09e667) == 0xce20b47e by { hide Rotr; }
    hide Rotr, BigSigma0, BigSigma1;
    assert Ch(0x510e527f, 0x9b05688c, 0x1f83d9ab) == 0x1f85c98c;
    assert Maj(0x6a09e667, 0xbb67ae85, 0x3c6ef372) == 0x3a6fe667;
    assert RoundConstant(0) == 0x428a2f98 by { assert K[0] == K_0[0]; }
    hide RoundConstant, Ch, Maj;
    assert Plus(Sum4(0x5be0cd19, 0x3587272b, 0x1f85c98c, 0x428a2f98), 0x61626380) == 0x54da50e8;
    assert Plus(0xce20b47e, 0x3a6fe667) == 0x08909ae5;
  }

  /** Where bit 0 and the lowest bit that is not shifted out go in the functions of the message
      schedule, as their amounts in section 4.1.2 of FIPS 180-4 send them. */
  lemma SmallSigmaBits()
    ensures SmallSigma0(1) == (1 << 25) | (1 << 14) && SmallSigma0(1 << 3) == (1 << 28) | (1 << 17) | 1
    ensures SmallSigma1(1) == (1 << 15) | (1 << 13) && SmallSigma1(1 << 10) == (1 << 25) | (1 << 23) | 1
  {
    assert Rotr(1, 7) == 1 << 25 && Rotr(1, 18) == 1 << 14;
    assert Rotr(8, 7) == 1 << 28 && Rotr(8, 18) == 1 << 17;
    assert Rotr(1, 17) == 1 << 15 && Rotr(1, 19) == 1 << 13;
    assert Rotr(1024, 17) == 1 << 25 && Rotr(1024, 19) == 1 << 23;
    hide Rotr;
  }
}
