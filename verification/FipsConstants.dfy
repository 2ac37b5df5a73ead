/** Where the constants of FIPS 180-4 come from: sections 4.2.2 and 5.3.3. */
module FipsConstants {
  import opened Bytes
  import Fips

  /** The first sixty-four primes. */
  const PRIMES: seq<nat> := FIRST + SECOND + THIRD + FOURTH

  const FIRST: seq<nat> := [2, 3, 5, 7, 11, 13, 17, 19, 23, 29, 31, 37, 41, 43, 47, 53]
  const SECOND: seq<nat> := [59, 61, 67, 71, 73, 79, 83, 89, 97, 101, 103, 107, 109, 113, 127, 131]
  const THIRD: seq<nat> := [137, 139, 149, 151, 157, 163, 167, 173, 179, 181, 191, 193, 197, 199, 211, 223]
  const FOURTH: seq<nat> := [227, 229, 233, 239, 241, 251, 257, 263, 269, 271, 277, 281, 283, 293, 307, 311]

  /** The whole part of the cube root of p and the first 32 bits after it, read as one number. */
  predicate IsCubeRoot(root: nat, p: nat) {
    root * root * root <= p * 0x1_0000_0000_0000_0000_0000_0000 < (root + 1) * (root + 1) * (root + 1)
  }

  predicate IsSquareRoot(root: nat, p: nat) {
    root * root <= p * 0x1_0000_0000_0000_0000 < (root + 1) * (root + 1)
  }

  ghost predicate FromCubeRoot(t: nat)
    requires t < 64
  {
    exists root: nat :: IsCubeRoot(root, PRIMES[t]) && Fips.K[t] == root % TWO32
  }

  lemma CubeRoot(t: nat, root: nat)
    requires t < 64 && IsCubeRoot(root, PRIMES[t]) && Fips.K[t] == root % TWO32
    ensures FromCubeRoot(t)
  {
  }

  lemma SquareRoot(t: nat, root: nat)
    requires t < 8 && IsSquareRoot(root, PRIMES[t]) && Fips.INITIAL.ToSeq()[t] == root % TWO32
    ensures FromSquareRoot(t)
  {
  }

  ghost predicate FromSquareRoot(t: nat)
    requires t < 8
  {
    exists root: nat :: IsSquareRoot(root, PRIMES[t]) && Fips.INITIAL.ToSeq()[t] == root % TWO32
  }

  lemma CubeRoots0()
    ensures forall t :: 0 <= t < 4 ==> FromCubeRoot(t)
  {
    hide FromCubeRoot;
    CubeRoot(0, 0x1428a2f98);
    CubeRoot(1, 0x171374491);
    CubeRoot(2, 0x1b5c0fbcf);
    CubeRoot(3, 0x1e9b5dba5);
  }

  lemma CubeRoots4()
    ensures forall t :: 4 <= t < 8 ==> FromCubeRoot(t)
  {
    hide FromCubeRoot;
    CubeRoot(4, 0x23956c25b);
    CubeRoot(5, 0x259f111f1);
    CubeRoot(6, 0x2923f82a4);
    CubeRoot(7, 0x2ab1c5ed5);
  }

  lemma CubeRoots8()
    ensures forall t :: 8 <= t < 12 ==> FromCubeRoot(t)
  {
    hide FromCubeRoot;
    CubeRoot(8, 0x2d807aa98);
    CubeRoot(9, 0x312835b01);
    CubeRoot(10, 0x3243185be);
    CubeRoot(11, 0x3550c7dc3);
  }

  lemma CubeRoots12()
    ensures forall t :: 12 <= t < 16 ==> FromCubeRoot(t)
  {
    hide FromCubeRoot;
    CubeRoot(12, 0x372be5d74);
    CubeRoot(13, 0x380deb1fe);
    CubeRoot(14, 0x39bdc06a7);
    CubeRoot(15, 0x3c19bf174);
  }

  lemma CubeRoots16()
    ensures forall t :: 16 <= t < 20 ==> FromCubeRoot(t)
  {
    hide FromCubeRoot;
    CubeRoot(16, 0x3e49b69c1);
    CubeRoot(17, 0x3efbe4786);
    CubeRoot(18, 0x40fc19dc6);
    CubeRoot(19, 0x4240ca1cc);
  }

  lemma CubeRoots20()
    ensures forall t :: 20 <= t < 24 ==> FromCubeRoot(t)
  {
    hide FromCubeRoot;
    CubeRoot(20, 0x42de92c6f);
    CubeRoot(21, 0x44a7484aa);
    CubeRoot(22, 0x45cb0a9dc);
    CubeRoot(23, 0x476f988da);
  }

  lemma CubeRoots24()
    ensures forall t :: 24 <= t < 28 ==> FromCubeRoot(t)
  {
    hide FromCubeRoot;
    CubeRoot(24, 0x4983e5152);
    CubeRoot(25, 0x4a831c66d);
    CubeRoot(26, 0x4b00327c8);
    CubeRoot(27, 0x4bf597fc7);
  }

  lemma CubeRoots28()
    ensures forall t :: 28 <= t < 32 ==> FromCubeRoot(t)
  {
    hide FromCubeRoot;
    CubeRoot(28, 0x4c6e00bf3);
    CubeRoot(29, 0x4d5a79147);
    CubeRoot(30, 0x506ca6351);
    CubeRoot(31, 0x514292967);
  }

  lemma CubeRoots32()
    ensures forall t :: 32 <= t < 36 ==> FromCubeRoot(t)
  {
    hide FromCubeRoot;
    CubeRoot(32, 0x527b70a85);
    CubeRoot(33, 0x52e1b2138);
    CubeRoot(34, 0x54d2c6dfc);
    CubeRoot(35, 0x553380d13);
  }

  lemma CubeRoots36()
    ensures forall t :: 36 <= t < 40 ==> FromCubeRoot(t)
  {
    hide FromCubeRoot;
    CubeRoot(36, 0x5650a7354);
    CubeRoot(37, 0x5766a0abb);
    CubeRoot(38, 0x581c2c92e);
    CubeRoot(39, 0x592722c85);
  }

  lemma CubeRoots40()
    ensures forall t :: 40 <= t < 44 ==> FromCubeRoot(t)
  {
    hide FromCubeRoot;
    CubeRoot(40, 0x5a2bfe8a1);
    CubeRoot(41, 0x5a81a664b);
    CubeRoot(42, 0x5c24b8b70);
    CubeRoot(43, 0x5c76c51a3);
  }

  lemma CubeRoots44()
    ensures forall t :: 44 <= t < 48 ==> FromCubeRoot(t)
  {
    hide FromCubeRoot;
    CubeRoot(44, 0x5d192e819);
    CubeRoot(45, 0x5d6990624);
    CubeRoot(46, 0x5f40e3585);
    CubeRoot(47, 0x6106aa070);
  }

  lemma CubeRoots48()
    ensures forall t :: 48 <= t < 52 ==> FromCubeRoot(t)
  {
    hide FromCubeRoot;
    CubeRoot(48, 0x619a4c116);
    CubeRoot(49, 0x61e376c08);
    CubeRoot(50, 0x62748774c);
    CubeRoot(51, 0x634b0bcb5);
  }

  lemma CubeRoots52()
    ensures forall t :: 52 <= t < 56 ==> FromCubeRoot(t)
  {
    hide FromCubeRoot;
    CubeRoot(52, 0x6391c0cb3);
    CubeRoot(53, 0x64ed8aa4a);
    CubeRoot(54, 0x65b9cca4f);
    CubeRoot(55, 0x6682e6ff3);
  }

  lemma CubeRoots56()
    ensures forall t :: 56 <= t < 60 ==> FromCubeRoot(t)
  {
    hide FromCubeRoot;
    CubeRoot(56, 0x6748f82ee);
    CubeRoot(57, 0x678a5636f);
    CubeRoot(58, 0x684c87814);
    CubeRoot(59, 0x68cc70208);
  }

  lemma CubeRoots60()
    ensures forall t :: 60 <= t < 64 ==> FromCubeRoot(t)
  {
    hide FromCubeRoot;
    CubeRoot(60, 0x690befffa);
    CubeRoot(61, 0x6a4506ceb);
    CubeRoot(62, 0x6bef9a3f7);
    CubeRoot(63, 0x6c67178f2);
  }

  /** Every constant of the rounds is the first 32 bits of the fractional part of the cube root of a prime. */
  lemma RoundConstantsAreCubeRoots(t: nat)
    requires t < 64
    ensures FromCubeRoot(t)
  {
    hide FromCubeRoot;
    CubeRoots0();
    CubeRoots4();
    CubeRoots8();
    CubeRoots12();
    CubeRoots16();
    CubeRoots20();
    CubeRoots24();
    CubeRoots28();
    CubeRoots32();
    CubeRoots36();
    CubeRoots40();
    CubeRoots44();
    CubeRoots48();
    CubeRoots52();
    CubeRoots56();
    CubeRoots60();
  }

  lemma FirstSquareRoots()
    ensures forall t :: 0 <= t < 4 ==> FromSquareRoot(t)
  {
    hide FromSquareRoot;
    SquareRoot(0, 0x16a09e667);
    SquareRoot(1, 0x1bb67ae85);
    SquareRoot(2, 0x23c6ef372);
    SquareRoot(3, 0x2a54ff53a);
  }

  /** And the initial hash value of the square roots of the first eight. */
  lemma InitialHashIsSquareRoots(t: nat)
    requires t < 8
    ensures FromSquareRoot(t)
  {
    hide FromSquareRoot;
    FirstSquareRoots();
    SquareRoot(4, 0x3510e527f);
    SquareRoot(5, 0x39b05688c);
    SquareRoot(6, 0x41f83d9ab);
    SquareRoot(7, 0x45be0cd19);
  }
}
