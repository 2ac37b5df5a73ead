/** SHA-256 as sections 2.2, 4.1.2, 4.2.2, 5.1.1, 5.3.3 and 6.2.2 of FIPS 180-4 define it: words are
    numbers below 2^32, addition is modulo 2^32, and the schedule and the rounds are recursive. */
module Fips {
  import opened Bytes

  // Words as bits and back. Proofs leave these and the bit operations alone: they are the same
  // on both sides of every equation.
  function ToBits(x: U32): bv32 { x as bv32 }
  function FromBits(b: bv32): U32 { b as U32 }
  function BitXor(x: bv32, y: bv32): bv32 { x ^ y }
  function BitAnd(x: bv32, y: bv32): bv32 { x & y }
  function BitOr(x: bv32, y: bv32): bv32 { x | y }
  function BitNot(x: bv32): bv32 { !x }
  function BitShr(x: bv32, n: nat): bv32 requires n < 32 { x >> n }
  function BitShl(x: bv32, n: nat): bv32 requires n < 32 { x << n }

  function Xor(x: U32, y: U32): U32 { FromBits(BitXor(ToBits(x), ToBits(y))) }
  function And(x: U32, y: U32): U32 { FromBits(BitAnd(ToBits(x), ToBits(y))) }
  function Or(x: U32, y: U32): U32 { FromBits(BitOr(ToBits(x), ToBits(y))) }
  function Not(x: U32): U32 { FromBits(BitNot(ToBits(x))) }
  function Shr(x: U32, n: nat): U32 requires n < 32 { FromBits(BitShr(ToBits(x), n)) }
  function Shl(x: U32, n: nat): U32 requires n < 32 { FromBits(BitShl(ToBits(x), n)) }
  function Add(x: U32, y: U32): U32 { (x + y) % TWO32 }

  function Rotr(x: U32, n: nat): U32
    requires 0 < n < 32
  {
    Or(Shr(x, n), Shl(x, 32 - n))
  }

  function Ch(x: U32, y: U32, z: U32): U32 { Xor(And(x, y), And(Not(x), z)) }
  function Maj(x: U32, y: U32, z: U32): U32 { Xor(Xor(And(x, y), And(x, z)), And(y, z)) }
  function BigSigma0(x: U32): U32 { Xor(Xor(Rotr(x, 2), Rotr(x, 13)), Rotr(x, 22)) }
  function BigSigma1(x: U32): U32 { Xor(Xor(Rotr(x, 6), Rotr(x, 11)), Rotr(x, 25)) }
  function SmallSigma0(x: U32): U32 { Xor(Xor(Rotr(x, 7), Rotr(x, 18)), Shr(x, 3)) }
  function SmallSigma1(x: U32): U32 { Xor(Xor(Rotr(x, 17), Rotr(x, 19)), Shr(x, 10)) }

  /** The constants of the rounds, section 4.2.2. */
  const K: seq<U32> := FIRST + SECOND + THIRD + FOURTH

  const FIRST: seq<U32> := [
    0x428a2f98, 0x71374491, 0xb5c0fbcf, 0xe9b5dba5, 0x3956c25b, 0x59f111f1, 0x923f82a4, 0xab1c5ed5,
    0xd807aa98, 0x12835b01, 0x243185be, 0x550c7dc3, 0x72be5d74, 0x80deb1fe, 0x9bdc06a7, 0xc19bf174]
  const SECOND: seq<U32> := [
    0xe49b69c1, 0xefbe4786, 0x0fc19dc6, 0x240ca1cc, 0x2de92c6f, 0x4a7484aa, 0x5cb0a9dc, 0x76f988da,
    0x983e5152, 0xa831c66d, 0xb00327c8, 0xbf597fc7, 0xc6e00bf3, 0xd5a79147, 0x06ca6351, 0x14292967]
  const THIRD: seq<U32> := [
    0x27b70a85, 0x2e1b2138, 0x4d2c6dfc, 0x53380d13, 0x650a7354, 0x766a0abb, 0x81c2c92e, 0x92722c85,
    0xa2bfe8a1, 0xa81a664b, 0xc24b8b70, 0xc76c51a3, 0xd192e819, 0xd6990624, 0xf40e3585, 0x106aa070]
  const FOURTH: seq<U32> := [
    0x19a4c116, 0x1e376c08, 0x2748774c, 0x34b0bcb5, 0x391c0cb3, 0x4ed8aa4a, 0x5b9cca4f, 0x682e6ff3,
    0x748f82ee, 0x78a5636f, 0x84c87814, 0x8cc70208, 0x90befffa, 0xa4506ceb, 0xbef9a3f7, 0xc67178f2]

  datatype Words = Words(a: U32, b: U32, c: U32, d: U32, e: U32, f: U32, g: U32, h: U32) {
    function ToSeq(): (s: seq<U32>)
      ensures |s| == 8
    {
      [a, b, c, d, e, f, g, h]
    }
  }

  const INITIAL := Words(
    0x6a09e667, 0xbb67ae85, 0x3c6ef372, 0xa54ff53a, 0x510e527f, 0x9b05688c, 0x1f83d9ab, 0x5be0cd19)

  /** The big-endian word at a position. */
  function BigEndian(b: seq<U8>, at: nat): U32
    requires at + 4 <= |b|
  {
    b[at] as int * 0x100_0000 + b[at + 1] as int * 0x1_0000 + b[at + 2] as int * 0x100 + b[at + 3]
  }

  function BeBytes(x: U32): (b: seq<U8>)
    ensures |b| == 4
  {
    [x / 0x100_0000, x / 0x1_0000 % 0x100, x / 0x100 % 0x100, x % 0x100]
  }

  /** Step 1 of section 6.2.2: word t of the message schedule of the block at `at`. */
  function W(m: seq<U8>, at: nat, t: nat): U32
    requires at + 64 <= |m| && t < 64
  {
    if t < 16 then BigEndian(m, at + 4 * t)
    else Add(Add(Add(SmallSigma1(W(m, at, t - 2)), W(m, at, t - 7)), SmallSigma0(W(m, at, t - 15))), W(m, at, t - 16))
  }

  /** One round of step 3. */
  function Round(v: Words, k: U32, w: U32): Words {
    var t1 := Add(Add(Add(Add(v.h, BigSigma1(v.e)), Ch(v.e, v.f, v.g)), k), w);
    var t2 := Add(BigSigma0(v.a), Maj(v.a, v.b, v.c));
    Words(Add(t1, t2), v.a, v.b, v.c, Add(v.d, t1), v.e, v.f, v.g)
  }

  /** The working variables after the first n rounds. */
  function Rounds(start: Words, m: seq<U8>, at: nat, n: nat): Words
    requires at + 64 <= |m| && n <= 64
  {
    if n == 0 then start else Round(Rounds(start, m, at, n - 1), K[n - 1], W(m, at, n - 1))
  }

  function AddWords(x: Words, y: Words): Words {
    Words(Add(x.a, y.a), Add(x.b, y.b), Add(x.c, y.c), Add(x.d, y.d),
          Add(x.e, y.e), Add(x.f, y.f), Add(x.g, y.g), Add(x.h, y.h))
  }

  /** The hash value after the first n blocks. */
  function HashBlocks(m: seq<U8>, n: nat): Words
    requires 64 * n <= |m|
  {
    if n == 0 then INITIAL
    else var h := HashBlocks(m, n - 1); AddWords(h, Rounds(h, m, 64 * (n - 1), 64))
  }

  function Zeros(n: nat): (z: seq<U8>)
    ensures |z| == n
  {
    seq(n, _ => 0)
  }

  predicate LeavesRoomForLength(len: nat, k: nat) { (len + 1 + k) % 64 == 56 }

  /** Section 5.1.1, in bytes: the least k with len + 1 + k = 56 modulo 64. */
  function PadZeros(len: nat): (k: nat)
    ensures k < 64 && LeavesRoomForLength(len, k)
    ensures forall j :: 0 <= j < k ==> !LeavesRoomForLength(len, j)
  {
    (119 - len % 64) % 64
  }

  lemma RoomForLength(n: nat)
    requires n % 64 == 56
    ensures (n + 8) % 64 == 0
  {
  }

  function Pad(m: seq<U8>): (p: seq<U8>)
    requires |m| < 0x2000_0000_0000_0000
    ensures |p| % 64 == 0 && |m| + 9 <= |p| < |m| + 9 + 64
  {
    var bits := 8 * |m|;
    RoomForLength(|m| + 1 + PadZeros(|m|));
    m + ([0x80] + (Zeros(PadZeros(|m|)) + (BeBytes(bits / TWO32) + BeBytes(bits % TWO32))))
  }

  function Digest(m: seq<U8>): Words
    requires |m| < 0x2000_0000_0000_0000
  {
    HashBlocks(Pad(m), |Pad(m)| / 64)
  }

  // ----- the digest as text -----

  function HexDigit(d: nat): char
    requires d < 16
  {
    "0123456789abcdef"[d]
  }

  /** The n lowest hexadecimal digits of x. */
  function Hex(x: nat, n: nat): (s: string)
    ensures |s| == n
    ensures forall c :: c in s ==> c in "0123456789abcdef"
  {
    if n == 0 then "" else Hex(x / 16, n - 1) + [HexDigit(x % 16)]
  }

  function HexWords(words: seq<U32>): (s: string)
    ensures |s| == 8 * |words|
    ensures forall c :: c in s ==> c in "0123456789abcdef"
  {
    if words == [] then "" else Hex(words[0], 8) + HexWords(words[1..])
  }

  /** The digest of a message, as both programs exchange it. */
  function Sha256Hex(m: seq<U8>): (s: string)
    requires |m| < 0x2000_0000_0000_0000
    ensures |s| == 64
    ensures forall c :: c in s ==> c in "0123456789abcdef"
  {
    HexWords(Digest(m).ToSeq())
  }

  // ----- the padding and the text lose nothing -----

  /** The message in a padded one: the last eight bytes say how long it is. */
  function Unpad(p: seq<U8>): Option<seq<U8>>
  {
    if |p| < 8 then None
    else
      var len := (BigEndian(p, |p| - 8) * TWO32 + BigEndian(p, |p| - 4)) / 8;
      if len <= |p| then Some(p[..len]) else None
  }

  lemma BeDigits(x: U32)
    ensures x / 0x100_0000 * 0x100_0000 + x / 0x1_0000 % 0x100 * 0x1_0000 + x / 0x100 % 0x100 * 0x100 + x % 0x100 == x
  {
    assert x / 0x1_0000 == x / 0x100_0000 * 0x100 + x / 0x1_0000 % 0x100;
    assert x / 0x100 == x / 0x1_0000 * 0x100 + x / 0x100 % 0x100;
  }

  lemma BigEndianReadsBack(b: seq<U8>, at: nat, x: U32)
    requires at + 4 <= |b| && b[at..at + 4] == BeBytes(x)
    ensures BigEndian(b, at) == x
  {
    var c := b[at..at + 4];
    BeDigits(x);
    assert b[at] == c[0] && b[at + 1] == c[1] && b[at + 2] == c[2] && b[at + 3] == c[3];
  }

  lemma PadCanBeUndone(m: seq<U8>)
    requires |m| < 0x2000_0000_0000_0000
    ensures Unpad(Pad(m)) == Some(m)
  {
    var p := Pad(m);
    var bits := 8 * |m|;
    assert p[|p| - 8..|p| - 4] == BeBytes(bits / TWO32);
    assert p[|p| - 4..|p|] == BeBytes(bits % TWO32);
    BigEndianReadsBack(p, |p| - 8, bits / TWO32);
    BigEndianReadsBack(p, |p| - 4, bits % TWO32);
    assert p[..|m|] == m;
  }

  lemma HexDigitIsInjective(x: nat, y: nat)
    requires x < 16 && y < 16 && HexDigit(x) == HexDigit(y)
    ensures x == y
  {
  }

  lemma {:induction false} HexIsInjective(x: nat, y: nat, n: nat)
    requires Hex(x, n) == Hex(y, n)
    requires n == 8 ==> x < TWO32 && y < TWO32
    requires n < 8 ==> x < HexRange(n) && y < HexRange(n)
    requires n <= 8
    ensures x == y
  {
    hide HexDigit;
    if n > 0 {
      var s, t := Hex(x, n), Hex(y, n);
      assert s[n - 1] == HexDigit(x % 16) && t[n - 1] == HexDigit(y % 16);
      HexDigitIsInjective(x % 16, y % 16);
      assert s[..n - 1] == Hex(x / 16, n - 1) && t[..n - 1] == Hex(y / 16, n - 1);
      HexRangeOf8();
      HexIsInjective(x / 16, y / 16, n - 1);
    }
  }

  function HexRange(n: nat): nat { if n == 0 then 1 else 16 * HexRange(n - 1) }

  lemma HexRangeOf8()
    ensures HexRange(8) == TWO32
  {
    assert HexRange(4) == 16 * HexRange(3) == 256 * HexRange(2) == 4096 * HexRange(1) == 65536;
    assert HexRange(8) == 16 * HexRange(7) == 256 * HexRange(6) == 4096 * HexRange(5) == 65536 * HexRange(4);
  }

  lemma {:induction false} HexWordsIsInjective(v: seq<U32>, w: seq<U32>)
    requires |v| == |w| && HexWords(v) == HexWords(w)
    ensures v == w
  {
    if v != [] {
      var s, t := HexWords(v), HexWords(w);
      assert s[..8] == Hex(v[0], 8) && t[..8] == Hex(w[0], 8);
      assert s[8..] == HexWords(v[1..]) && t[8..] == HexWords(w[1..]);
      HexIsInjective(v[0], w[0], 8);
      HexWordsIsInjective(v[1..], w[1..]);
      assert v == [v[0]] + v[1..] && w == [w[0]] + w[1..];
    }
  }

  /** Two digests are written alike only if they are the same. */
  lemma DigestTextIsInjective(v: Words, w: Words)
    ensures HexWords(v.ToSeq()) == HexWords(w.ToSeq()) <==> v == w
  {
    if HexWords(v.ToSeq()) == HexWords(w.ToSeq()) {
      HexWordsIsInjective(v.ToSeq(), w.ToSeq());
      var s, t := v.ToSeq(), w.ToSeq();
      assert s[0] == t[0] && s[1] == t[1] && s[2] == t[2] && s[3] == t[3];
      assert s[4] == t[4] && s[5] == t[5] && s[6] == t[6] && s[7] == t[7];
    }
  }
}
