/** IEEE 754 binary32 and binary64 numbers as bit patterns, with the numbers they stand for. Comparing and
    clamping are exact; what is rounded is rounded as module Rounding says. */
module Floats {
  import opened Bytes
  import opened Rounding

  type F32 = U32
  type F64 = U64

  const ZERO: F32 := 0
  const NEG_ZERO: F32 := 0x8000_0000
  const ONE: F32 := 0x3F80_0000
  const NINETY: F32 := 0x42B4_0000
  const NEG_NINETY: F32 := 0xC2B4_0000
  const TEN_THOUSAND: F32 := 0x461C_4000
  const NEG_TEN_THOUSAND: F32 := 0xC61C_4000

  const ONE_64: F64 := 0x3FF0_0000_0000_0000
  const NINETY_64: F64 := 0x4056_8000_0000_0000
  const NEG_NINETY_64: F64 := 0xC056_8000_0000_0000
  const TEN_THOUSAND_64: F64 := 0x40C3_8800_0000_0000
  const NEG_TEN_THOUSAND_64: F64 := 0xC0C3_8800_0000_0000

  predicate IsFinite32(x: F32) { x / 0x80_0000 % 256 != 255 }
  predicate IsFinite64(x: F64) { x / 0x10_0000_0000_0000 % 2048 != 2047 }

  /** Sign and magnitude read as one integer. -0 and +0 have the same key. */
  function Key(x: F32): int { if x < 0x8000_0000 then x else 0x8000_0000 - x }

  /** `f32::clamp`: a value that is neither below nor above the bounds stays as it is. */
  function Clamp(x: F32, low: F32, high: F32): F32
  {
    if Key(x) < Key(low) then low else if Key(x) > Key(high) then high else x
  }

  function FiniteOrZero(x: F32): F32 { if IsFinite32(x) then x else ZERO }
  function FiniteOrZero64(x: F64): F64 { if IsFinite64(x) then x else 0 }

  const SIGN_64: int := 0x8000_0000_0000_0000

  function Key64(x: F64): int { if x < SIGN_64 then x else SIGN_64 - x }

  /** `Math.max`, which prefers +0 to -0. */
  function MathMax(x: F64, y: F64): F64 {
    if Key64(x) > Key64(y) then x
    else if Key64(x) < Key64(y) then y
    else if x == SIGN_64 then y else x
  }

  /** `Math.min`, which prefers -0 to +0. */
  function MathMin(x: F64, y: F64): F64 {
    if Key64(x) < Key64(y) then x
    else if Key64(x) > Key64(y) then y
    else if x == 0 then y else x
  }

  /** The browser's clamp, `Math.min(maximum, Math.max(minimum, value))`. */
  function JsClamp(x: F64, low: F64, high: F64): F64 { MathMin(high, MathMax(low, x)) }

  // ----- what the bits stand for -----

  const HIDDEN: nat := 0x80_0000
  const HIDDEN_64: nat := 0x10_0000_0000_0000

  /** The value of a magnitude, as a multiple of the smallest positive number of its format, in which
      `hidden` is the bit that normal numbers do not store. */
  function Magnitude(m: nat, hidden: nat): nat
    requires hidden > 0
  {
    var exponent, fraction := m / hidden, m % hidden;
    if exponent == 0 then fraction else (hidden + fraction) * Pow2(exponent - 1)
  }

  /** The value of a finite number, as a multiple of 2^-149. */
  function Value(x: F32): int {
    if x < 0x8000_0000 then Magnitude(x, HIDDEN) else -(Magnitude(x - 0x8000_0000, HIDDEN) as int)
  }

  /** The value of a finite number, as a multiple of 2^-1074. */
  function Value64(x: F64): int {
    if x < SIGN_64 then Magnitude(x, HIDDEN_64) else -(Magnitude(x - SIGN_64, HIDDEN_64) as int)
  }

  lemma SmallerProduct(x: nat, y: nat, p: nat)
    requires x < y && 0 < p
    ensures x * p < y * p
  {
    Compared(x, y, p);
  }

  /** The least number with a larger exponent is above every number with exponent e. */
  lemma ExponentsDominate(g: nat, h: nat, e: nat, f: nat, hidden: nat)
    requires e < f && g < hidden
    ensures (hidden + g) * Pow2(e) < (hidden + h) * Pow2(f)
  {
    hide Pow2;
    Pow2Grows(e, f);
    var p, q := Pow2(e), Pow2(f);
    SmallerProduct(hidden + g, 2 * hidden, p);
    Associate(2, hidden, p);
    Ordered(2 * p, q, hidden);
    Ordered(hidden, hidden + h, q);
    assert hidden * q == q * hidden && 2 * p * hidden == 2 * (hidden * p) by { Associate(2, p, hidden); }
  }

  lemma MagnitudeGrows(m: nat, n: nat, hidden: nat)
    requires m < n && hidden > 0
    ensures Magnitude(m, hidden) < Magnitude(n, hidden)
  {
    hide Pow2;
    var e, f, g, h := m / hidden, n / hidden, m % hidden, n % hidden;
    Parts(m, hidden);
    Parts(n, hidden);
    Ordered(f, e, hidden);
    if f == 0 {
      assert e == 0;
    } else if e == f {
      SmallerProduct(hidden + g, hidden + h, Pow2(e - 1));
    } else if e == 0 {
      Ordered(1, Pow2(f - 1), hidden + h);
      assert Pow2(f - 1) * (hidden + h) == (hidden + h) * Pow2(f - 1);
    } else {
      ExponentsDominate(g, h, e - 1, f - 1, hidden);
    }
  }

  lemma MagnitudesCompare(m: nat, n: nat, hidden: nat)
    requires hidden > 0
    ensures Magnitude(m, hidden) < Magnitude(n, hidden) <==> m < n
    ensures Magnitude(m, hidden) == Magnitude(n, hidden) <==> m == n
    ensures Magnitude(m, hidden) == 0 <==> m == 0
  {
    hide Magnitude;
    if m < n { MagnitudeGrows(m, n, hidden); }
    if n < m { MagnitudeGrows(n, m, hidden); }
    if m > 0 { MagnitudeGrows(0, m, hidden); }
    MagnitudeOfZero(hidden);
  }

  lemma MagnitudeOfZero(hidden: nat)
    requires hidden > 0
    ensures Magnitude(0, hidden) == 0
  {
  }

  function Size(x: F32): nat { if x < 0x8000_0000 then x else x - 0x8000_0000 }
  function Size64(x: F64): nat { if x < SIGN_64 then x else x - SIGN_64 }

  /** The integer order of the keys is the order of the numbers. */
  lemma KeyOrdersValues(x: F32, y: F32)
    ensures Key(x) < Key(y) <==> Value(x) < Value(y)
  {
    hide Magnitude;
    MagnitudesCompare(Size(x), Size(y), HIDDEN);
    MagnitudesCompare(Size(y), Size(x), HIDDEN);
  }

  lemma KeyOrdersValues64(x: F64, y: F64)
    ensures Key64(x) < Key64(y) <==> Value64(x) < Value64(y)
  {
    hide Magnitude;
    MagnitudesCompare(Size64(x), Size64(y), HIDDEN_64);
    MagnitudesCompare(Size64(y), Size64(x), HIDDEN_64);
  }

  /** Clamping puts a finite number between its bounds and moves no number that is already there. */
  lemma ClampMeaning(x: F32, low: F32, high: F32)
    requires Key(low) <= Key(high)
    ensures Value(low) <= Value(Clamp(x, low, high)) <= Value(high)
    ensures Value(low) <= Value(x) <= Value(high) ==> Clamp(x, low, high) == x
    ensures Value(x) < Value(low) ==> Clamp(x, low, high) == low
    ensures Value(high) < Value(x) ==> Clamp(x, low, high) == high
  {
    hide Value, Key;
    KeyOrdersValues(x, low);
    KeyOrdersValues(low, x);
    KeyOrdersValues(high, x);
    KeyOrdersValues(x, high);
    KeyOrdersValues(low, high);
    KeyOrdersValues(high, low);
  }

  function Limited(v: int, low: int, high: int): int { if v < low then low else if v > high then high else v }

  /** The browser's clamp on the numbers, which the signs of zeros do not change. */
  lemma JsClampMeaning(x: F64, low: F64, high: F64)
    requires Key64(low) <= Key64(high)
    ensures Value64(JsClamp(x, low, high)) == Limited(Value64(x), Value64(low), Value64(high))
    ensures JsClamp(x, low, high) == x || JsClamp(x, low, high) == low || JsClamp(x, low, high) == high
  {
    hide Value64, Key64;
    KeyOrdersValues64(x, low);
    KeyOrdersValues64(low, x);
    KeyOrdersValues64(high, x);
    KeyOrdersValues64(x, high);
    KeyOrdersValues64(low, high);
    KeyOrdersValues64(high, low);
  }

  // ----- from a number to its bits -----

  /** The magnitude with the value n, for an n that a binary32 number can have. */
  function Pattern(n: nat): (m: nat)
    ensures m < 0x8000_0000
  {
    var length := Length(n);
    if length <= 23 then PatternIsSmall(n); n
    else if length > 277 then 0x7F80_0000
    else TopDigits(n); (length - 23) * HIDDEN + (n / Pow2(length - 24) - HIDDEN)
  }

  lemma Hiddens()
    ensures Pow2(23) == HIDDEN && Pow2(24) == 2 * HIDDEN
  {
    SmallPowers();
    Pow2Adds(8, 8);
    Pow2Adds(16, 7);
    Pow2Adds(16, 8);
  }

  lemma SmallPowers()
    ensures Pow2(3) == 8 && Pow2(6) == 0x40 && Pow2(7) == 0x80 && Pow2(8) == 0x100
  {
    assert Pow2(1) == 2 && Pow2(2) == 4;
    assert Pow2(3) == 8 && Pow2(4) == 16;
    assert Pow2(5) == 32 && Pow2(6) == 64;
  }

  lemma PatternIsSmall(n: nat)
    requires Length(n) <= 23
    ensures n < HIDDEN
  {
    LengthBelow(n, 23);
    Hiddens();
  }

  /** The first 24 binary digits of a longer number. */
  lemma TopDigits(n: nat)
    requires Length(n) >= 24
    ensures HIDDEN <= n / Pow2(Length(n) - 24) < 2 * HIDDEN
  {
    hide Pow2, Length;
    var k := Length(n) - 24;
    LengthBelow(n, 23);
    LengthBounds(n);
    Hiddens();
    Pow2Adds(23, k);
    Pow2Adds(24, k);
    var top := n / Pow2(k);
    Parts(n, Pow2(k));
    Ordered(top, HIDDEN, Pow2(k));
    Ordered(2 * HIDDEN, top, Pow2(k));
  }

  /** A number's bits are found again from its value, which never needs rounding. */
  lemma PatternOfMagnitude(m: nat)
    requires m < 0x7F80_0000
    ensures Pattern(Magnitude(m, HIDDEN)) == m && Fits(Magnitude(m, HIDDEN), 24, 0)
  {
    hide Pow2, Length;
    var e, f := m / HIDDEN, m % HIDDEN;
    var n := Magnitude(m, HIDDEN);
    Hiddens();
    if e == 0 {
      LengthBelow(n, 23);
      assert Pow2(0) == 1 by { OneIsPow2(); }
      assert Spacing(n, 24, 0) == 1;
    } else {
      LengthIs(HIDDEN + f, 24);
      LengthScales(HIDDEN + f, e - 1);
      MultipleOf(HIDDEN + f, Pow2(e - 1));
      assert Length(n) - 24 == e - 1;
      if e == 1 { OneIsPow2(); }
    }
  }

  lemma OneIsPow2()
    ensures Pow2(0) == 1
  {
  }

  /** And the value from the bits, if it needed no rounding. */
  lemma MagnitudeOfPattern(n: nat)
    requires Fits(n, 24, 0) && Length(n) <= 277
    ensures Magnitude(Pattern(n), HIDDEN) == n && Pattern(n) < 0x7F80_0000
  {
    hide Pow2, Length;
    var length := Length(n);
    if length <= 23 {
      PatternIsSmall(n);
    } else {
      TopDigits(n);
      var k := length - 24;
      var top := n / Pow2(k);
      var m := Pattern(n);
      assert m == (k + 1) * HIDDEN + (top - HIDDEN);
      DivMod(m, HIDDEN, k + 1, top - HIDDEN);
      if k == 0 { OneIsPow2(); }
      Parts(n, Pow2(k));
    }
  }

  // ----- between the two formats -----

  /** 2^-149 as a multiple of 2^-1074. */
  const SCALE: nat := 925

  function Quotient(n: nat, q: nat): nat
    requires q > 0
  {
    n / q
  }

  /** A multiple of 2^-1074 rounded to 24 digits, nothing finer than 2^-149, as a multiple of 2^-149. */
  function InSingles(n: nat): nat { Quotient(Rounded(n, 24, SCALE), Pow2(SCALE)) }

  /** `setFloat32` of a finite number. */
  function Single(x: F64): F32 {
    Pattern(InSingles(Magnitude(Size64(x), HIDDEN_64))) + (if x < SIGN_64 then 0 else 0x8000_0000)
  }

  lemma InSinglesScales(n: nat)
    ensures InSingles(n * Pow2(SCALE)) == Rounded(n, 24, 0)
  {
    hide Pow2, Rounded;
    RoundedScales(n, 24, SCALE);
    MultipleOf(Rounded(n, 24, 0), Pow2(SCALE));
  }

  /** Rounded, and then the nearest to zero of both signs. */
  function RoundedSigned(v: int): int { if v >= 0 then Rounded(v, 24, SCALE) else -(Rounded(-v, 24, SCALE) as int) }

  lemma InSinglesMeaning(n: nat)
    ensures InSingles(n) * Pow2(SCALE) == Rounded(n, 24, SCALE) && Fits(InSingles(n), 24, 0)
  {
    hide Pow2, Rounded, Fits;
    RoundedCounts(n, 24, SCALE);
    Parts(Rounded(n, 24, SCALE), Pow2(SCALE));
  }

  /** What `setFloat32` writes is the number itself, rounded to 24 digits and to multiples of 2^-149, as long as
      that is not too large. */
  lemma SingleMeaning(x: F64)
    requires IsFinite64(x) && Length(InSingles(Magnitude(Size64(x), HIDDEN_64))) <= 277
    ensures IsFinite32(Single(x)) && Value(Single(x)) * Pow2(SCALE) == RoundedSigned(Value64(x))
  {
    hide Pow2, Rounded, Fits, Magnitude, InSingles, Length;
    var n := Magnitude(Size64(x), HIDDEN_64);
    InSinglesMeaning(n);
    MagnitudeOfPattern(InSingles(n));
    RoundedZero();
    NegativeProduct(InSingles(n), Pow2(SCALE));
    FiniteSize(Single(x));
    SingleParts(x);
  }

  lemma SingleParts(x: F64)
    ensures var m := Pattern(InSingles(Magnitude(Size64(x), HIDDEN_64)));
      && Size(Single(x)) == m && (Single(x) < 0x8000_0000 <==> x < SIGN_64)
  {
    hide Pattern, InSingles, Magnitude;
  }

  lemma RoundedZero()
    ensures Rounded(0, 24, SCALE) == 0
  {
    NearestZero(Spacing(0, 24, SCALE));
  }

  /** Two finite numbers of the two formats are the same, signs of zeros included. */
  predicate Same(d: F64, f: F32) {
    && IsFinite64(d) && IsFinite32(f)
    && (d < SIGN_64 <==> f < 0x8000_0000)
    && Magnitude(Size64(d), HIDDEN_64) == Magnitude(Size(f), HIDDEN) * Pow2(SCALE)
  }

  lemma FiniteSize(f: F32)
    ensures IsFinite32(f) <==> Size(f) < 0x7F80_0000
  {
  }

  /** Converting a number that needs no rounding gives the same number. */
  lemma SingleOfSame(d: F64, f: F32)
    requires Same(d, f)
    ensures Single(d) == f
  {
    hide Pow2, Magnitude, Pattern, InSingles, Fits;
    var n := Magnitude(Size(f), HIDDEN);
    FiniteSize(f);
    PatternOfMagnitude(Size(f));
    InSinglesScales(n);
    FittingStays(n, 24, 0);
  }

  lemma FittingStays(n: nat, digits: nat, least: nat)
    requires Fits(n, digits, least)
    ensures Rounded(n, digits, least) == n
  {
    hide Nearest, Spacing;
    NearestExact(n, Spacing(n, digits, least));
  }

  lemma SameValues(d: F64, f: F32)
    requires Same(d, f)
    ensures Value64(d) == Value(f) * Pow2(SCALE)
  {
    hide Pow2, Magnitude;
    NegativeProduct(Magnitude(Size(f), HIDDEN), Pow2(SCALE));
  }

  lemma NegativeProduct(a: int, s: int)
    ensures (-a) * s == -(a * s)
  {
  }

  lemma SameOrder(d: F64, f: F32, e: F64, g: F32)
    requires Same(d, f) && Same(e, g)
    ensures Key64(d) < Key64(e) <==> Key(f) < Key(g)
  {
    hide Value, Value64, Key, Key64, Same, Pow2;
    SameValues(d, f);
    SameValues(e, g);
    KeyOrdersValues(f, g);
    KeyOrdersValues64(d, e);
    SignedCompared(Value(f), Value(g), Pow2(SCALE));
  }

  lemma SignedCompared(a: int, b: int, s: nat)
    requires s > 0
    ensures a < b <==> a * s < b * s
  {
    if a < b {
      Ordered(1, b - a, s);
      Difference(b, a, s);
    } else {
      Ordered(0, a - b, s);
      Difference(a, b, s);
    }
  }

  lemma Difference(a: int, b: int, s: int)
    ensures (a - b) * s == a * s - b * s
  {
  }

  /** A normal number in both formats: the exponents differ by 896, the fractions by 29 zeros. */
  lemma NormalIsSame(d: F64, f: F32)
    requires IsFinite32(f) && Size(f) >= HIDDEN && (d < SIGN_64 <==> f < 0x8000_0000)
    requires Size64(d) == (Size(f) / HIDDEN + 896) * HIDDEN_64 + Size(f) % HIDDEN * 0x2000_0000
    ensures Same(d, f)
  {
    hide Pow2;
    var e, g := Size(f) / HIDDEN, Size(f) % HIDDEN;
    FiniteSize(f);
    DivMod(Size64(d), HIDDEN_64, e + 896, g * 0x2000_0000);
    Pow2Adds(e - 1, 896);
    Pow2Adds(29, 896);
    TwentyNine();
    var p, q := Pow2(e - 1), Pow2(896);
    assert HIDDEN_64 + g * 0x2000_0000 == (HIDDEN + g) * 0x2000_0000;
    Associate(HIDDEN + g, 0x2000_0000, p * q);
    Associate(0x2000_0000, p, q);
    Associate(p, 0x2000_0000, q);
    Associate(HIDDEN + g, p, 0x2000_0000 * q);
  }

  lemma TwentyNine()
    ensures Pow2(29) == 0x2000_0000
  {
    Hiddens();
    SmallPowers();
    Pow2Adds(23, 6);
  }

  lemma ConstantsAreSame()
    ensures Same(0, ZERO) && Same(ONE_64, ONE) && Same(NINETY_64, NINETY) && Same(NEG_NINETY_64, NEG_NINETY)
    ensures Same(TEN_THOUSAND_64, TEN_THOUSAND) && Same(NEG_TEN_THOUSAND_64, NEG_TEN_THOUSAND)
  {
    hide Pow2, Magnitude;
    MagnitudeOfZero(HIDDEN);
    MagnitudeOfZero(HIDDEN_64);
    NormalIsSame(ONE_64, ONE);
    NormalIsSame(NINETY_64, NINETY);
    NormalIsSame(NEG_NINETY_64, NEG_NINETY);
    NormalIsSame(TEN_THOUSAND_64, TEN_THOUSAND);
    NormalIsSame(NEG_TEN_THOUSAND_64, NEG_TEN_THOUSAND);
  }

  lemma SameZeros(d: F64, f: F32)
    requires Same(d, f)
    ensures d == 0 <==> f == ZERO
    ensures d == SIGN_64 <==> f == NEG_ZERO
  {
    hide Pow2, Magnitude;
    MagnitudesCompare(Size(f), 0, HIDDEN);
    MagnitudesCompare(Size64(d), 0, HIDDEN_64);
    Compared(0, Magnitude(Size(f), HIDDEN), Pow2(SCALE));
  }

  /** On the same number and bounds the browser's clamp, written as binary32, and the host's differ on one
      input only: a lower bound of zero turns -0 into +0 in the browser. */
  lemma JsClampAgrees(d: F64, f: F32, low64: F64, low: F32, high64: F64, high: F32)
    requires Same(d, f) && Same(low64, low) && Same(high64, high)
    requires Key(low) < Key(high) && low != NEG_ZERO && Key(high) != 0
    ensures Single(JsClamp(d, low64, high64)) == Clamp(f, low, high) <==> !(low == ZERO && f == NEG_ZERO)
  {
    hide Same, Single;
    SameOrder(d, f, low64, low);
    SameOrder(low64, low, d, f);
    SameOrder(d, f, high64, high);
    SameOrder(high64, high, d, f);
    SameOrder(low64, low, high64, high);
    SameOrder(high64, high, low64, low);
    SameZeros(d, f);
    SingleOfSame(d, f);
    SingleOfSame(low64, low);
    SingleOfSame(high64, high);
    SameZeros(low64, low);
    SameZeros(high64, high);
  }
}
