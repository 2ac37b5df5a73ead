/** `sha256Hex` as the browser runs it: JavaScript's 32-bit operators on numbers, a padded buffer, a
    schedule array that every block overwrites, eight variables rotated in place. */
module Sha256 {
  import opened Bytes
  import opened Fips

  // ----- JavaScript numbers -----

  /** ToInt32 of an integer, as bits. */
  function Bits(x: int): bv32 { ToBits(x % TWO32) }

  /** The number that 32 bits stand for as a signed integer. */
  function Signed(b: bv32): int { if FromBits(b) < 0x8000_0000 then FromBits(b) else FromBits(b) - TWO32 }

  function JsXor(x: int, y: int): int { Signed(BitXor(Bits(x), Bits(y))) }
  function JsAnd(x: int, y: int): int { Signed(BitAnd(Bits(x), Bits(y))) }
  function JsOr(x: int, y: int): int { Signed(BitOr(Bits(x), Bits(y))) }
  function JsNot(x: int): int { Signed(BitNot(Bits(x))) }
  function JsShiftLeft(x: int, n: nat): int requires n < 32 { Signed(BitShl(Bits(x), n)) }
  /** `>>>`, which gives an unsigned number. */
  function JsShiftRight(x: int, n: nat): int requires n < 32 { FromBits(BitShr(Bits(x), n)) }
  /** `>>> 0`. */
  function ToUint32(x: int): U32 { x % TWO32 }

  function RotateRight(value: int, shift: nat): int
    requires 0 < shift < 32
  {
    JsOr(JsShiftRight(value, shift), JsShiftLeft(value, 32 - shift))
  }

  /** Every operator gives the FIPS operation, up to a multiple of 2^32. */
  lemma Congruent(x: int, y: int)
    ensures ToUint32(JsXor(x, y)) == Xor(ToUint32(x), ToUint32(y))
    ensures ToUint32(JsAnd(x, y)) == And(ToUint32(x), ToUint32(y))
    ensures ToUint32(JsOr(x, y)) == Or(ToUint32(x), ToUint32(y))
    ensures ToUint32(JsNot(x)) == Not(ToUint32(x))
  {
    hide ToBits, FromBits, BitXor, BitAnd, BitOr, BitNot, BitShl, BitShr;
  }

  lemma CongruentShifts(x: int, n: nat)
    requires n < 32
    ensures ToUint32(JsShiftLeft(x, n)) == Shl(ToUint32(x), n)
    ensures ToUint32(JsShiftRight(x, n)) == Shr(ToUint32(x), n)
  {
    hide ToBits, FromBits, BitXor, BitAnd, BitOr, BitNot, BitShl, BitShr;
  }

  lemma CongruentRotation(x: int, n: nat)
    requires 0 < n < 32
    ensures ToUint32(RotateRight(x, n)) == Rotr(ToUint32(x), n)
  {
    hide JsShiftLeft, JsShiftRight, JsOr, Shl, Shr, Or;
    CongruentShifts(x, n);
    CongruentShifts(x, 32 - n);
    Congruent(JsShiftRight(x, n), JsShiftLeft(x, 32 - n));
  }

  function Xor3(x: int, y: int, z: int): int { JsXor(JsXor(x, y), z) }

  lemma CongruentXor3(x: int, y: int, z: int)
    ensures ToUint32(Xor3(x, y, z)) == Xor(Xor(ToUint32(x), ToUint32(y)), ToUint32(z))
  {
    hide JsXor, Xor;
    Congruent(x, y);
    Congruent(JsXor(x, y), z);
  }

  lemma CongruentSigmas(x: U32)
    ensures ToUint32(Xor3(RotateRight(x, 7), RotateRight(x, 18), JsShiftRight(x, 3))) == SmallSigma0(x)
    ensures ToUint32(Xor3(RotateRight(x, 17), RotateRight(x, 19), JsShiftRight(x, 10))) == SmallSigma1(x)
    ensures ToUint32(Xor3(RotateRight(x, 6), RotateRight(x, 11), RotateRight(x, 25))) == BigSigma1(x)
    ensures ToUint32(Xor3(RotateRight(x, 2), RotateRight(x, 13), RotateRight(x, 22))) == BigSigma0(x)
  {
    hide RotateRight, Rotr, JsShiftRight, Shr, Xor3, Xor, ToUint32;
    Reduced(x);
    CongruentRotation(x, 7); CongruentRotation(x, 18); CongruentShifts(x, 3);
    CongruentXor3(RotateRight(x, 7), RotateRight(x, 18), JsShiftRight(x, 3));
    CongruentRotation(x, 17); CongruentRotation(x, 19); CongruentShifts(x, 10);
    CongruentXor3(RotateRight(x, 17), RotateRight(x, 19), JsShiftRight(x, 10));
    CongruentRotation(x, 6); CongruentRotation(x, 11); CongruentRotation(x, 25);
    CongruentXor3(RotateRight(x, 6), RotateRight(x, 11), RotateRight(x, 25));
    CongruentRotation(x, 2); CongruentRotation(x, 13); CongruentRotation(x, 22);
    CongruentXor3(RotateRight(x, 2), RotateRight(x, 13), RotateRight(x, 22));
  }

  lemma CongruentChoice(x: U32, y: U32, z: U32)
    ensures ToUint32(JsXor(JsAnd(x, y), JsAnd(JsNot(x), z))) == Ch(x, y, z)
  {
    hide JsXor, JsAnd, JsNot, JsOr, Xor, And, Not, Or, ToUint32;
    Reduced(x); Reduced(y); Reduced(z);
    Congruent(x, y);
    Congruent(JsNot(x), z);
    Congruent(JsAnd(x, y), JsAnd(JsNot(x), z));
  }

  lemma CongruentMajority(x: U32, y: U32, z: U32)
    ensures ToUint32(Xor3(JsAnd(x, y), JsAnd(x, z), JsAnd(y, z))) == Maj(x, y, z)
  {
    hide JsXor, JsAnd, JsNot, JsOr, Xor, And, Not, Or, Xor3, ToUint32;
    Reduced(x); Reduced(y); Reduced(z);
    Congruent(x, y);
    Congruent(x, z);
    Congruent(y, z);
    CongruentXor3(JsAnd(x, y), JsAnd(x, z), JsAnd(y, z));
  }

  lemma Reduced(x: U32)
    ensures ToUint32(x) == x
  {
  }

  /** One `>>> 0` at the end of a sum does what FIPS does at every addition. */
  lemma OneReduction(p: int, q: int, r: int, s: int, t: int)
    ensures ToUint32(p + q) == Add(ToUint32(p), ToUint32(q))
    ensures ToUint32(p + q + r) == Add(Add(ToUint32(p), ToUint32(q)), ToUint32(r))
    ensures ToUint32(p + q + r + s) == Add(Add(Add(ToUint32(p), ToUint32(q)), ToUint32(r)), ToUint32(s))
    ensures ToUint32(p + q + r + s + t) == Add(Add(Add(Add(ToUint32(p), ToUint32(q)), ToUint32(r)), ToUint32(s)), ToUint32(t))
  {
    hide ToUint32, Add;
    TwoTerms(p, q);
    TwoTerms(p + q, r);
    TwoTerms(p + q + r, s);
    TwoTerms(p + q + r + s, t);
  }

  lemma TwoTerms(x: int, y: int)
    ensures ToUint32(x + y) == Add(ToUint32(x), ToUint32(y))
  {
  }

  // ----- the buffer -----

  method SetUint32BigEndian(view: array<U8>, at: nat, value: int)
    requires at + 4 <= view.Length
    modifies view
    ensures view[..] == old(view[..at]) + BeBytes(ToUint32(value)) + old(view[at + 4..])
  {
    var bytes := BeBytes(ToUint32(value));
    forall i | 0 <= i < 4 {
      view[at + i] := bytes[i];
    }
  }

  /** The zero-filled buffer with the message and the end mark in it. */
  method MarkedBuffer(bytes: seq<U8>, paddedLength: nat) returns (padded: array<U8>)
    requires |bytes| < paddedLength
    ensures fresh(padded) && padded[..] == bytes + [0x80] + Zeros(paddedLength - |bytes| - 1)
  {
    padded := new U8[paddedLength](_ => 0);
    forall i | 0 <= i < |bytes| {
      padded[i] := bytes[i];
    }
    padded[|bytes|] := 0x80;
  }

  lemma PaddedLength(len: nat)
    ensures (len + 9 + 63) / 64 * 64 == len + 1 + PadZeros(len) + 8
  {
    hide PadZeros;
    var n := len + 1 + PadZeros(len);
    RoomForLength(n);
    var x, y := (len + 9 + 63) / 64, (n + 8) / 64;
    assert 64 * x <= len + 72 < 64 * x + 64 && n + 8 == 64 * y;
    assert x == y;
  }

  /** `padded` with its two length words. */
  method PaddedBuffer(bytes: seq<U8>) returns (padded: array<U8>)
    requires |bytes| < 0x4_0000_0000_0000
    ensures fresh(padded) && padded[..] == Pad(bytes)
  {
    hide Zeros, BeBytes, PadZeros;
    var bitLength := |bytes| * 8;
    var paddedLength := (|bytes| + 9 + 63) / 64 * 64;
    PaddedLength(|bytes|);
    ghost var zeros := PadZeros(|bytes|);
    padded := MarkedBuffer(bytes, paddedLength);
    ZerosPrefix(zeros, 8);
    var high := bitLength / 0x1_0000_0000;
    var low := ToUint32(bitLength);
    SetUint32BigEndian(padded, paddedLength - 8, high);
    Reduced(high);
    SetUint32BigEndian(padded, paddedLength - 4, low);
    Reduced(low);
    PadOf(bytes, padded[..], high, low);
  }

  /** The padding, told by its parts. */
  lemma PadOf(bytes: seq<U8>, p: seq<U8>, high: U32, low: U32)
    requires |bytes| < 0x4_0000_0000_0000
    requires high == |bytes| * 8 / TWO32 && low == |bytes| * 8 % TWO32
    requires var n := |bytes| + 1 + PadZeros(|bytes|);
      |p| == n + 8 && p[..n] == bytes + [0x80] + Zeros(PadZeros(|bytes|)) &&
      p[n..n + 4] == BeBytes(high) && p[n + 4..] == BeBytes(low)
    ensures p == Pad(bytes)
  {
    hide Zeros, BeBytes, PadZeros;
    var n := |bytes| + 1 + PadZeros(|bytes|);
    assert p == p[..n] + (p[n..n + 4] + p[n + 4..]);
  }

  lemma ZerosPrefix(n: nat, more: nat)
    ensures Zeros(n + more)[..n] == Zeros(n)
  {
  }

  // ----- the two inner loops -----

  method Schedule(m: seq<U8>, block: nat, words: array<U32>)
    requires block + 64 <= |m| && words.Length == 64
    modifies words
    ensures forall t :: 0 <= t < 64 ==> words[t] == W(m, block, t)
  {
    hide SmallSigma0, SmallSigma1, BigEndian, Add, RotateRight, JsShiftRight, Xor3, ToUint32;
    for index := 0 to 16
      invariant forall t :: 0 <= t < index ==> words[t] == W(m, block, t)
    {
      words[index] := BigEndian(m, block + index * 4);
    }
    for index := 16 to 64
      invariant forall t :: 0 <= t < index ==> words[t] == W(m, block, t)
    {
      var earlier15 := words[index - 15];
      var earlier2 := words[index - 2];
      var s0 := Xor3(RotateRight(earlier15, 7), RotateRight(earlier15, 18), JsShiftRight(earlier15, 3));
      var s1 := Xor3(RotateRight(earlier2, 17), RotateRight(earlier2, 19), JsShiftRight(earlier2, 10));
      ScheduleWord(words[index - 16], earlier15, words[index - 7], earlier2);
      words[index] := ToUint32(words[index - 16] + s0 + words[index - 7] + s1);
    }
  }

  lemma ScheduleWord(w16: U32, w15: U32, w7: U32, w2: U32)
    ensures var s0 := Xor3(RotateRight(w15, 7), RotateRight(w15, 18), JsShiftRight(w15, 3));
      var s1 := Xor3(RotateRight(w2, 17), RotateRight(w2, 19), JsShiftRight(w2, 10));
      ToUint32(w16 + s0 + w7 + s1) == Add(Add(Add(SmallSigma1(w2), w7), SmallSigma0(w15)), w16)
  {
    hide *;
    var s0 := Xor3(RotateRight(w15, 7), RotateRight(w15, 18), JsShiftRight(w15, 3));
    var s1 := Xor3(RotateRight(w2, 17), RotateRight(w2, 19), JsShiftRight(w2, 10));
    CongruentSigmas(w15);
    CongruentSigmas(w2);
    OneReduction(s1, w7, s0, w16, 0);
    Reduced(w7);
    Reduced(w16);
    assert w16 + s0 + w7 + s1 == s1 + w7 + s0 + w16;
  }

  // `first` and `second` of the round loop.
  function First(v: Words, k: U32, w: U32): U32 {
    ToUint32(v.h + Xor3(RotateRight(v.e, 6), RotateRight(v.e, 11), RotateRight(v.e, 25)) +
             JsXor(JsAnd(v.e, v.f), JsAnd(JsNot(v.e), v.g)) + k + w)
  }

  function Second(v: Words): U32 {
    ToUint32(Xor3(RotateRight(v.a, 2), RotateRight(v.a, 13), RotateRight(v.a, 22)) +
             Xor3(JsAnd(v.a, v.b), JsAnd(v.a, v.c), JsAnd(v.b, v.c)))
  }

  lemma FirstIsT1(v: Words, k: U32, w: U32)
    ensures First(v, k, w) == Add(Add(Add(Add(v.h, BigSigma1(v.e)), Ch(v.e, v.f, v.g)), k), w)
  {
    hide RotateRight, JsShiftRight, Xor3, JsXor, JsAnd, JsNot, ToUint32, SmallSigma0, SmallSigma1, BigSigma0, BigSigma1, Ch, Maj, Add;
    var sigma1 := Xor3(RotateRight(v.e, 6), RotateRight(v.e, 11), RotateRight(v.e, 25));
    var choice := JsXor(JsAnd(v.e, v.f), JsAnd(JsNot(v.e), v.g));
    CongruentSigmas(v.e);
    CongruentChoice(v.e, v.f, v.g);
    OneReduction(v.h, sigma1, choice, k, w);
    Reduced(v.h); Reduced(k); Reduced(w);
  }

  lemma SecondIsT2(v: Words)
    ensures Second(v) == Add(BigSigma0(v.a), Maj(v.a, v.b, v.c))
  {
    hide RotateRight, JsShiftRight, Xor3, JsXor, JsAnd, JsNot, ToUint32, SmallSigma0, SmallSigma1, BigSigma0, BigSigma1, Ch, Maj, Add;
    var sigma0 := Xor3(RotateRight(v.a, 2), RotateRight(v.a, 13), RotateRight(v.a, 22));
    var majority := Xor3(JsAnd(v.a, v.b), JsAnd(v.a, v.c), JsAnd(v.b, v.c));
    CongruentSigmas(v.a);
    CongruentMajority(v.a, v.b, v.c);
    TwoTerms(sigma0, majority);
  }

  /** One pass through the round loop is one FIPS round. */
  lemma PassIsRound(v: Words, k: U32, w: U32)
    ensures Words(Add(First(v, k, w), Second(v)), v.a, v.b, v.c, Add(v.d, First(v, k, w)), v.e, v.f, v.g) ==
      Round(v, k, w)
  {
    hide First, Second, Add, BigSigma0, BigSigma1, Ch, Maj;
    FirstIsT1(v, k, w);
    SecondIsT2(v);
  }

  lemma RoundsStep(start: Words, m: seq<U8>, block: nat)
    requires block + 64 <= |m|
    ensures Rounds(start, m, block, 0) == start
    ensures forall n :: 0 <= n < 64 ==>
      Rounds(start, m, block, n + 1) == Round(Rounds(start, m, block, n), K[n], W(m, block, n))
  {
    hide Round, W;
  }

  method Compress(m: seq<U8>, block: nat, words: array<U32>, start: Words) returns (end: Words)
    requires block + 64 <= |m| && words.Length == 64
    requires forall t :: 0 <= t < 64 ==> words[t] == W(m, block, t)
    ensures end == Rounds(start, m, block, 64)
  {
    hide W, Round, Rounds, RotateRight, Xor3, JsXor, JsAnd, JsNot;
    RoundsStep(start, m, block);
    var a: U32, b: U32, c: U32, d: U32 := start.a, start.b, start.c, start.d;
    var e: U32, f: U32, g: U32, h: U32 := start.e, start.f, start.g, start.h;
    for index := 0 to 64
      invariant Words(a, b, c, d, e, f, g, h) == Rounds(start, m, block, index)
    {
      PassIsRound(Words(a, b, c, d, e, f, g, h), K[index], words[index]);
      var sigma1 := Xor3(RotateRight(e, 6), RotateRight(e, 11), RotateRight(e, 25));
      var choice := JsXor(JsAnd(e, f), JsAnd(JsNot(e), g));
      var first: int := ToUint32(h + sigma1 + choice + K[index] + words[index]);
      var sigma0 := Xor3(RotateRight(a, 2), RotateRight(a, 13), RotateRight(a, 22));
      var majority := Xor3(JsAnd(a, b), JsAnd(a, c), JsAnd(b, c));
      var second: int := ToUint32(sigma0 + majority);
      h := g;
      g := f;
      f := e;
      e := ToUint32(d + first);
      d := c;
      c := b;
      b := a;
      a := ToUint32(first + second);
    }
    end := Words(a, b, c, d, e, f, g, h);
  }

  // ----- the whole -----

  /** `toString(16)`: no leading zeros, and "0" for zero. */
  function ToString16(x: nat): (s: string)
    ensures |s| >= 1
  {
    if x < 16 then [HexDigit(x)] else ToString16(x / 16) + [HexDigit(x % 16)]
  }

  function PadStart(s: string, length: nat): string
    decreases length - |s|
  {
    if |s| >= length then s else PadStart("0" + s, length)
  }

  lemma {:induction false} PadStartAppend(s: string, d: char, n: nat)
    requires |s| <= n
    ensures PadStart(s + [d], n + 1) == PadStart(s, n) + [d]
    decreases n - |s|
  {
    if |s| < n {
      assert "0" + (s + [d]) == ("0" + s) + [d];
      PadStartAppend("0" + s, d, n);
    }
  }

  /** The least significant n digits are all of them. */
  lemma {:induction false} PaddedIsHex(x: nat, n: nat)
    requires n > 0 && x < HexRange(n)
    ensures |ToString16(x)| <= n && PadStart(ToString16(x), n) == Hex(x, n)
    decreases n
  {
    hide HexDigit;
    if n == 1 {
      assert Hex(x, 1) == Hex(0, 0) + [HexDigit(x)];
      assert HexRange(1) == 16;
    } else if x < 16 {
      PaddedZeros(n - 1);
      PadStartAppend("", HexDigit(x), n - 1);
      assert "" + [HexDigit(x)] == [HexDigit(x)];
    } else {
      assert x / 16 < HexRange(n - 1);
      PaddedIsHex(x / 16, n - 1);
      PadStartAppend(ToString16(x / 16), HexDigit(x % 16), n - 1);
    }
  }

  lemma {:induction false} PaddedZeros(n: nat)
    ensures PadStart("", n) == Hex(0, n)
  {
    if n > 0 {
      PaddedZeros(n - 1);
      assert "0" + "" == "" + "0";
      PadStartAppend("", '0', n - 1);
    }
  }

  /** The block loop: every block is added to `hash` in place. */
  method HashAllBlocks(padded: seq<U8>, hash: array<U32>)
    requires |padded| % 64 == 0 && hash.Length == 8 && hash[..] == INITIAL.ToSeq()
    modifies hash
    ensures hash[..] == HashBlocks(padded, |padded| / 64).ToSeq()
  {
    hide Rounds, W, HashBlocks;
    var words := new U32[64](_ => 0);
    var block := 0;
    FirstBlock(padded);
    while block < |padded|
      invariant block <= |padded| && block % 64 == 0
      invariant hash[..] == HashBlocks(padded, block / 64).ToSeq()
    {
      ghost var before := HashBlocks(padded, block / 64);
      NextBlock(padded, block / 64);
      Schedule(padded, block, words);
      assert before == Words(hash[..][0], hash[..][1], hash[..][2], hash[..][3], hash[..][4], hash[..][5], hash[..][6], hash[..][7]);
      var v := Compress(padded, block, words,
        Words(hash[0], hash[1], hash[2], hash[3], hash[4], hash[5], hash[6], hash[7]));
      AddToHash(hash, v, before);
      block := block + 64;
    }
  }

  /** `hash[i] = (hash[i] + …) >>> 0` for the eight words. */
  method AddToHash(hash: array<U32>, v: Words, ghost before: Words)
    requires hash.Length == 8 && hash[..] == before.ToSeq()
    modifies hash
    ensures hash[..] == AddWords(before, v).ToSeq()
  {
    hide ToUint32, Add;
    assert forall i :: 0 <= i < 8 ==> hash[i] == before.ToSeq()[i];
    SumIsAdd(before.a, v.a);
    SumIsAdd(before.b, v.b);
    SumIsAdd(before.c, v.c);
    SumIsAdd(before.d, v.d);
    SumIsAdd(before.e, v.e);
    SumIsAdd(before.f, v.f);
    SumIsAdd(before.g, v.g);
    SumIsAdd(before.h, v.h);
    hash[0] := ToUint32(hash[0] as int + v.a);
    hash[1] := ToUint32(hash[1] as int + v.b);
    hash[2] := ToUint32(hash[2] as int + v.c);
    hash[3] := ToUint32(hash[3] as int + v.d);
    hash[4] := ToUint32(hash[4] as int + v.e);
    hash[5] := ToUint32(hash[5] as int + v.f);
    hash[6] := ToUint32(hash[6] as int + v.g);
    hash[7] := ToUint32(hash[7] as int + v.h);
  }

  lemma SumIsAdd(x: U32, y: U32)
    ensures ToUint32(x as int + y) == Add(x, y)
  {
  }

  lemma FirstBlock(padded: seq<U8>)
    ensures HashBlocks(padded, 0) == INITIAL
  {
  }

  lemma NextBlock(padded: seq<U8>, n: nat)
    requires 64 * (n + 1) <= |padded|
    ensures HashBlocks(padded, n + 1) ==
      AddWords(HashBlocks(padded, n), Rounds(HashBlocks(padded, n), padded, 64 * n, 64))
  {
    hide AddWords, Rounds;
  }

  method JoinHex(hash: seq<U32>) returns (text: string)
    ensures text == HexWords(hash)
  {
    hide Hex;
    text := "";
    HexRangeOf8();
    assert hash[0..] == hash;
    for i := 0 to |hash|
      invariant text + HexWords(hash[i..]) == HexWords(hash)
    {
      PaddedIsHex(hash[i], 8);
      assert hash[i..][0] == hash[i] && hash[i..][1..] == hash[i + 1..];
      assert text + (Hex(hash[i], 8) + HexWords(hash[i + 1..])) == text + Hex(hash[i], 8) + HexWords(hash[i + 1..]);
      text := text + PadStart(ToString16(hash[i]), 8);
    }
    assert hash[|hash|..] == [] && text + "" == text;
  }

  /** The browser's digest is the FIPS 180-4 digest, for every input below 2^50 bytes. */
  method Sha256HexOf(bytes: seq<U8>) returns (text: string)
    requires |bytes| < 0x4_0000_0000_0000
    ensures text == Sha256Hex(bytes)
  {
    hide Pad, HashBlocks, HexWords;
    var padded := PaddedBuffer(bytes);
    var hash := new U32[] [
      0x6a09e667, 0xbb67ae85, 0x3c6ef372, 0xa54ff53a, 0x510e527f, 0x9b05688c, 0x1f83d9ab, 0x5be0cd19];
    HashAllBlocks(padded[..], hash);
    text := JoinHex(hash[..]);
  }
}
