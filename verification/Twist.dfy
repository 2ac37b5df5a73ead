/** Wrapping the twist of a pen to one turn: `rem_euclid(360.0)` in binary32 on the host, two remainders and
    a sum in binary64 in the browser. Remainders are exact; each program rounds its sum, and the browser
    rounds once more when it writes. */
module Twist {
  import opened Bytes
  import opened Rounding
  import opened Floats

  const THREE_SIXTY: F32 := 0x43B4_0000

  /** 360 as a multiple of 2^-149. */
  function Turn(): (t: nat)
    ensures t > 0
  {
    360 * Pow2(149)
  }

  /** The remainder of a division that truncates: it has the sign of v. */
  function Remainder(v: int, d: nat): (r: int)
    requires d > 0
    ensures -(d as int) < r < d && (v >= 0 ==> r >= 0) && (v <= 0 ==> r <= 0)
  {
    if v >= 0 then v % d else -((-v) % d)
  }

  /** How far beyond whole turns a twist is, as a multiple of 2^-149. */
  function Beyond(t: F32): (r: int)
    ensures -(Turn() as int) < r < Turn()
  {
    Remainder(Value(t), Turn())
  }

  predicate IsNegative(t: F32) { t >= 0x8000_0000 }

  /** `rem_euclid(360.0)`: the remainder itself, or rounded after a turn is added if it is below zero. A
      remainder of zero keeps the sign. */
  function WrapTwist(t: F32): F32 {
    var r := Beyond(t);
    if r < 0 then Pattern(Rounded(Turn() + r, 24, 0))
    else if r == 0 && IsNegative(t) then NEG_ZERO
    else Pattern(r)
  }

  /** 360 as a multiple of 2^-1074. */
  function Turn64(): (t: nat)
    ensures t > 0
  {
    Positive(Turn(), Pow2(SCALE));
    Turn() * Pow2(SCALE)
  }

  /** The sum of the first remainder and 360, and the remainder of that. */
  function JsModulo(v: int): nat {
    Rounded(Turn64() + Remainder(v, Turn64()), 53, 0) % Turn64()
  }

  /** `positiveModulo(x, 360)` as it is written. */
  function JsWrapTwist(x: F64): F32 { Pattern(InSingles(JsModulo(Value64(x)))) }

  /** The browser's result, rounded to binary32, is a number from 0 to 360. */
  lemma JsModuloBounds(v: int)
    ensures var k := InSingles(JsModulo(v)); k <= Turn() && Fits(k, 24, 0) && Length(k) <= 158
  {
    hide Pow2, Fits, Rounded, Length, Turn;
    var n := JsModulo(v);
    InSinglesMeaning(n);
    TurnBits();
    TurnBitsScaled();
    RoundedBelow(n, Turn64(), 24, SCALE);
    Compared(Turn(), InSingles(n), Pow2(SCALE));
    LengthGrows(InSingles(n), Turn());
  }

  lemma TurnBitsScaled()
    ensures Fits(Turn64(), 24, SCALE)
  {
    hide Pow2, Spacing, Length;
    TurnBits();
    SpacingScales(Turn(), 24, SCALE);
    DivModScales(Turn(), Spacing(Turn(), 24, 0), Pow2(SCALE));
  }

  // ----- the size of a turn -----

  /** A turn is an even multiple of every power of two that matters. */
  lemma TurnIsEven(k: nat)
    requires k <= 151
    ensures Turn() % Pow2(k) == 0 && Turn() / Pow2(k) % 2 == 0
  {
    hide Pow2;
    SmallPowers();
    Pow2Adds(3, 149);
    Pow2Adds(152 - k, k);
    Pow2Adds(1, 151 - k);
    Two();
    EvenMultiple(Turn(), Pow2(149), Pow2(152), Pow2(151 - k), Pow2(k));
  }

  lemma EvenMultiple(turn: nat, unit: nat, eight: nat, half: nat, q: nat)
    requires turn == 360 * unit && eight == 8 * unit && q > 0 && eight == 2 * half * q
    ensures turn % q == 0 && turn / q % 2 == 0
  {
    Associate(45, 2 * half, q);
    MultipleOf(45 * (2 * half), q);
    Halved(45 * half);
    assert 45 * (2 * half) == 2 * (45 * half);
  }

  lemma Halved(n: nat)
    ensures 2 * n % 2 == 0
  {
  }

  lemma Two()
    ensures Pow2(0) == 1 && Pow2(1) == 2
  {
  }

  lemma TurnBounds()
    ensures Pow2(157) + 104 * Pow2(149) == Turn() < Pow2(158)
    ensures Pow2(133) < Pow2(149) && Pow2(128) < Pow2(133) && Pow2(104) < Pow2(128)
    ensures Pow2(105) == 2 * Pow2(104) && Pow2(134) == 2 * Pow2(133) && Pow2(106) == 2 * Pow2(105)
  {
    hide Pow2;
    SmallPowers();
    Two();
    Pow2Adds(8, 149);
    Pow2Adds(1, 157);
    Pow2Adds(1, 104);
    Pow2Adds(1, 105);
    Pow2Adds(1, 133);
    Pow2Grows(133, 149);
    Pow2Grows(128, 133);
    Pow2Grows(104, 128);
  }

  // ----- what rounding does near a turn -----

  lemma RoundedFits(n: nat, digits: nat)
    requires digits > 0
    ensures Fits(Rounded(n, digits, 0), digits, 0) && Length(Rounded(n, digits, 0)) <= Length(n) + 1
    ensures forall m: nat :: n < Pow2(m) ==> Rounded(n, digits, 0) <= Pow2(m)
  {
    hide Pow2, Length, Nearest;
    var q, r, l := Spacing(n, digits, 0), Rounded(n, digits, 0), Length(n);
    NearestIsMultiple(n, q);
    forall m: nat | n < Pow2(m) ensures r <= Pow2(m) {
      LengthBelow(n, m);
      SpacingDivides(n, digits, m);
      NearestStays(n, q, Pow2(m));
    }
    LengthBelow(n, l);
    LengthBelow(r, l + 1);
    LengthBelow(r, l);
    Pow2Grows(l, l + 1);
    if Length(r) <= l {
      CoarserSpacing(r, n, digits, 0);
      MultipleOfMultiple(r, Spacing(r, digits, 0), q);
    } else {
      assert r == Pow2(l);
      SpacingDivides(r, digits, l);
    }
  }

  lemma SpacingDivides(n: nat, digits: nat, m: nat)
    requires digits > 0 && Length(n) <= m + 1
    ensures Pow2(m) % Spacing(n, digits, 0) == 0
  {
    hide Pow2, Length;
    PowersDivide(0, m);
    if Length(n) > digits { PowersDivide(Length(n) - digits, m); }
  }

  /** A number a little below a turn is rounded up to the turn exactly from half a step on; any other stays
      below it. `half` is the exponent of half the distance between numbers there. */
  lemma RoundsToTurn(n: nat, digits: nat, half: nat)
    requires n < Turn() && half + digits == 157 && digits >= 10
    ensures Rounded(n, digits, 0) <= Turn()
    ensures Rounded(n, digits, 0) == Turn() <==> Turn() - n <= Pow2(half)
  {
    hide Pow2, Length, Nearest, Turn;
    TurnBounds();
    TurnIsEven(half + 1);
    var q := Pow2(half + 1);
    Pow2Adds(1, half);
    Two();
    HalfIsSmall(half);
    if n >= Pow2(157) {
      LengthIs(n, 158);
      assert Spacing(n, digits, 0) == q;
      NearestStays(n, q, Turn());
      NearestReaches(n, q, Turn());
    } else {
      RoundedFits(n, digits);
    }
  }

  lemma HalfIsSmall(half: nat)
    requires half <= 147
    ensures Pow2(half) < Pow2(149)
  {
    Pow2Grows(half, 149);
  }

  // ----- remainders are exact -----

  lemma LargeAreMultiples(n: nat, k: nat)
    requires Fits(n, 24, 0) && n >= Pow2(k + 23)
    ensures n % Pow2(k) == 0
  {
    hide Pow2, Length;
    LengthBelow(n, k + 23);
    PowersDivide(k, Length(n) - 24);
    MultipleOfMultiple(n, Pow2(k), Pow2(Length(n) - 24));
  }

  lemma SizeFits(t: F32)
    requires IsFinite32(t)
    ensures Fits(Magnitude(Size(t), HIDDEN), 24, 0)
  {
    FiniteSize(t);
    PatternOfMagnitude(Size(t));
  }

  function Absolute(v: int): nat { if v >= 0 then v else -v }

  lemma BeyondSize(t: F32)
    ensures Absolute(Beyond(t)) == Magnitude(Size(t), HIDDEN) % Turn()
  {
    hide Magnitude, Turn;
  }

  /** The remainder of a twist is a binary32 number itself: `%` does not round. */
  lemma RemainderIsExact(t: F32)
    requires IsFinite32(t)
    ensures var size := Absolute(Beyond(t));
      Fits(size, 24, 0) && Length(size) <= 158 && Magnitude(Pattern(size), HIDDEN) == size && Pattern(size) < 0x7F80_0000
  {
    hide Pow2, Length, Magnitude, Turn, Beyond, Pattern, Fits, Absolute;
    var n, turn := Magnitude(Size(t), HIDDEN), Turn();
    SizeFits(t);
    BeyondSize(t);
    TurnBounds();
    var size := n % turn;
    if n < turn {
      LengthBelow(n, 158);
      SmallRemainder(n, turn);
    } else {
      LargeAreMultiples(n, 134);
      TurnIsEven(134);
      RemainderIsMultiple(n, turn, Pow2(134));
      MultiplesFit(size, 24, 134);
    }
    MagnitudeOfPattern(size);
  }

  lemma SmallRemainder(n: nat, d: nat)
    requires n < d
    ensures n % d == n
  {
  }

  lemma RemainderIsMultiple(n: nat, d: nat, q: nat)
    requires d > 0 && q > 0 && n % q == 0 && d % q == 0
    ensures n % d % q == 0
  {
    Parts(n, d);
    Parts(d, q);
    Associate(n / d, d / q, q);
    MultipleOf(n / d * (d / q), q);
    SumOfMultiples(n / d * d, n % d, q);
  }

  // ----- wrapping twice -----

  lemma TurnBits()
    ensures Fits(Turn(), 24, 0) && Length(Turn()) == 158 && Pattern(Turn()) == THREE_SIXTY
    ensures IsFinite32(THREE_SIXTY) && Value(THREE_SIXTY) == Turn()
  {
    hide Pow2, Length, Pattern;
    TurnBounds();
    TurnIsEven(134);
    MultiplesFit(Turn(), 24, 134);
    LengthIs(Turn(), 158);
    SmallPowers();
    Pow2Adds(8, 7);
    Pow2Adds(15, 134);
    PatternOfMagnitude(THREE_SIXTY);
  }

  lemma WrappedOnce(n: nat)
    requires Fits(n, 24, 0) && n < Turn()
    ensures Pattern(n) < 0x7F80_0000 && IsFinite32(Pattern(n)) && Value(Pattern(n)) == n == Beyond(Pattern(n))
    ensures WrapTwist(Pattern(n)) == Pattern(n)
  {
    hide Pow2, Length, Turn, Fits, Pattern, Magnitude;
    TurnBounds();
    LengthBelow(n, 158);
    MagnitudeOfPattern(n);
    FiniteSize(Pattern(n));
    SmallRemainder(n, Turn());
  }

  lemma WrapOfTurn()
    ensures WrapTwist(THREE_SIXTY) == ZERO
  {
    hide Turn, Value;
    TurnBits();
    assert Beyond(THREE_SIXTY) == 0 by { WholeTurn(Turn()); }
    assert Pattern(0) == 0 by { PatternOfZero(); }
  }

  lemma WholeTurn(d: nat)
    requires d > 0
    ensures d % d == 0
  {
  }

  lemma PatternOfZero()
    ensures Pattern(0) == 0
  {
  }

  lemma NegativeZeroStays()
    ensures WrapTwist(NEG_ZERO) == NEG_ZERO && Beyond(NEG_ZERO) == 0
  {
    hide Turn;
    MagnitudeOfZero(HIDDEN);
    SmallRemainder(0, Turn());
  }

  /** What wrapping gives below zero: a number rounded after a turn was added. */
  lemma WrapBelowZero(t: F32)
    requires Beyond(t) < 0
    ensures var n := Rounded(Turn() + Beyond(t), 24, 0);
      && WrapTwist(t) == Pattern(n) && Fits(n, 24, 0) && n <= Turn()
      && (n == Turn() <==> -Beyond(t) <= Pow2(133))
  {
    hide Pow2, Length, Turn, Beyond, Pattern, Nearest, Spacing;
    RoundedFits(Turn() + Beyond(t), 24);
    RoundsToTurn(Turn() + Beyond(t), 24, 133);
  }

  /** The twists that the host wraps to 360 itself: those less than 2^-16 below a whole number of turns, or
      exactly so much. */
  predicate RoundsUp(t: F32) { -(Pow2(133) as int) <= Beyond(t) < 0 }

  lemma WrapIs360Iff(t: F32)
    requires IsFinite32(t)
    ensures WrapTwist(t) == THREE_SIXTY <==> RoundsUp(t)
    ensures WrapTwist(t) != THREE_SIXTY ==> WrapTwist(WrapTwist(t)) == WrapTwist(t)
  {
    hide Pow2, Turn, Beyond, Pattern, Fits, Rounded, Value, Length;
    TurnBits();
    var r := Beyond(t);
    if r < 0 {
      WrapBelowZero(t);
      var n := Rounded(Turn() + r, 24, 0);
      if n < Turn() { WrappedOnce(n); }
    } else if r == 0 && IsNegative(t) {
      NegativeZeroStays();
    } else {
      RemainderIsExact(t);
      WrappedOnce(r);
    }
  }

  /** What the host makes of a twist: the exact remainder, or for a negative one the number nearest to it and a
      turn. */
  lemma WrapMeaning(t: F32)
    requires IsFinite32(t)
    ensures IsFinite32(WrapTwist(t))
    ensures Value(WrapTwist(t)) == if Beyond(t) >= 0 then Beyond(t) else Rounded(Turn() + Beyond(t), 24, 0)
  {
    hide Pow2, Turn, Beyond, Pattern, Fits, Rounded, Length, Magnitude;
    TurnBits();
    var r := Beyond(t);
    if r < 0 {
      WrapBelowZero(t);
      var n := Rounded(Turn() + r, 24, 0);
      if n < Turn() { WrappedOnce(n); }
    } else if r == 0 && IsNegative(t) {
      MagnitudeOfZero(HIDDEN);
    } else {
      RemainderIsExact(t);
      WrappedOnce(r);
    }
  }

  /** A wrapped twist is a number from 0 to 360. */
  lemma WrapIsBounded(t: F32)
    requires IsFinite32(t)
    ensures IsFinite32(WrapTwist(t)) && 0 <= Value(WrapTwist(t)) <= Turn()
  {
    hide Pow2, Turn, Beyond, Pattern, Fits, Rounded, Length, Magnitude;
    TurnBits();
    var r := Beyond(t);
    if r < 0 {
      WrapBelowZero(t);
      var n := Rounded(Turn() + r, 24, 0);
      if n < Turn() { WrappedOnce(n); }
    } else if r == 0 && IsNegative(t) {
      MagnitudeOfZero(HIDDEN);
    } else {
      RemainderIsExact(t);
      WrappedOnce(r);
    }
  }

  /** Wrapping a wrapped twist again changes nothing, if and only if the first wrapping did not round up to
      360. */
  lemma WrapIsStableIff(t: F32)
    requires IsFinite32(t)
    ensures WrapTwist(WrapTwist(t)) == WrapTwist(t) <==> !RoundsUp(t)
  {
    hide WrapTwist, RoundsUp;
    WrapIs360Iff(t);
    WrapOfTurn();
  }

  /** Twists from 0 to below 360 stay as they are. */
  lemma WrapKeeps(t: F32)
    requires IsFinite32(t) && 0 <= Value(t) < Turn()
    ensures WrapTwist(t) == t
  {
    hide Turn, Pattern, Magnitude;
    SizeFits(t);
    FiniteSize(t);
    PatternOfMagnitude(Size(t));
    SmallRemainder(Magnitude(Size(t), HIDDEN), Turn());
    MagnitudesCompare(Size(t), 0, HIDDEN);
  }

  /** -2^-16 degrees is such a twist. */
  const A_LITTLE_LESS: F32 := 0xB780_0000

  lemma ALittleLessRoundsUp()
    ensures IsFinite32(A_LITTLE_LESS) && RoundsUp(A_LITTLE_LESS) && WrapTwist(A_LITTLE_LESS) == THREE_SIXTY
    ensures WrapTwist(WrapTwist(A_LITTLE_LESS)) == ZERO
  {
    hide Pow2, Turn;
    Hiddens();
    Pow2Adds(23, 110);
    TurnBounds();
    SmallRemainder(Pow2(133), Turn());
    WrapIs360Iff(A_LITTLE_LESS);
    WrapOfTurn();
  }

  // ----- the browser -----

  lemma RemainderScales(v: int, d: nat, s: nat)
    requires d > 0 && s > 0
    ensures d * s > 0 && Remainder(v * s, d * s) == Remainder(v, d) * s
  {
    if v >= 0 {
      DivModScales(v, d, s);
      assert v * s >= 0;
    } else {
      DivModScales(-v, d, s);
      NegativeProduct(-v, s);
      NegativeProduct(-v % d, s);
      Positive(-v, s);
    }
  }

  lemma ScaledSum(a: nat, r: int, s: nat)
    requires a + r >= 0
    ensures a * s + r * s == (a + r) * s
  {
  }

  /** The sum that the browser rounds never has so few digits that the unit matters. */
  lemma SumIsLong(t: F32)
    requires IsFinite32(t)
    ensures Length(Turn() + Beyond(t)) > 53
  {
    hide Pow2, Length, Turn, Beyond, Fits;
    var r, n := Beyond(t), Turn() + Beyond(t);
    TurnBounds();
    RemainderIsExact(t);
    Pow2Grows(53, 104);
    LengthBelow(n, 53);
    if -r >= Pow2(157) {
      LargeAreMultiples(-r, 134);
      TurnIsEven(134);
      DifferenceOfMultiples(Turn(), -r, Pow2(134));
      AtLeastOne(n, Pow2(134));
    }
  }

  lemma DifferenceOfMultiples(a: nat, b: nat, q: nat)
    requires q > 0 && b <= a && a % q == 0 && b % q == 0
    ensures (a - b) % q == 0
  {
    SumOfMultiples(b, a - b, q);
  }

  lemma AtLeastOne(n: nat, q: nat)
    requires q > 0 && n > 0 && n % q == 0
    ensures n >= q
  {
    if n < q { SmallRemainder(n, q); }
  }

  /** What the browser computes from the same twist, counted in the units of the host. */
  function JsWrapped(t: F32): nat { Rounded(Rounded(Turn() + Beyond(t), 53, 0) % Turn(), 24, 0) }

  lemma JsWrapIs(x: F64, t: F32)
    requires Same(x, t)
    ensures JsWrapTwist(x) == Pattern(JsWrapped(t))
  {
    var v, turn, s, n := Value(t), Turn(), Pow2(SCALE), Turn() + Beyond(t);
    assert n > 0;
    assert Turn64() == turn * s;
    hide Pow2, Turn, Turn64, Value, Value64, Same, Rounded, Length, InSingles, Pattern, Remainder;
    SameValues(x, t);
    RemainderScales(v, turn, s);
    ScaledSum(turn, Beyond(t), s);
    assert JsModulo(Value64(x)) == Rounded(n * s, 53, 0) % (turn * s);
    SumIsLong(t);
    RoundedScalesFreely(n, 53, SCALE);
    DivModScales(Rounded(n, 53, 0), turn, s);
    InSinglesScales(Rounded(n, 53, 0) % turn);
  }

  /** The twists that the two programs wrap differently: negative whole turns and -0, twists at most 2^-45
      below a whole number of turns, and twists so little above one that they are not a multiple of 2^-44
      away. */
  predicate Differs(t: F32) {
    var r := Beyond(t);
    || (r == 0 && IsNegative(t))
    || -(Pow2(104) as int) <= r < 0
    || (r > 0 && r % Pow2(105) != 0)
  }

  lemma SumFits(n: nat)
    requires n < Pow2(158) && n % Pow2(105) == 0
    ensures Rounded(n, 53, 0) == n
  {
    hide Pow2, Rounded, Fits;
    MultiplesFit(n, 53, 105);
    FittingStays(n, 53, 0);
  }

  /** Close below a turn both programs round up to the turn. */
  lemma CloseBelow(n: nat)
    requires n < Turn() && Turn() - n < Pow2(128) && Rounded(n, 53, 0) < Turn()
    ensures Rounded(n, 24, 0) == Turn() == Rounded(Rounded(n, 53, 0), 24, 0)
  {
    hide Pow2, Turn, Nearest;
    TurnBounds();
    RoundsToTurn(n, 24, 133);
    var low := Turn() - Pow2(133);
    TurnIsEven(105);
    PowersDivide(105, 133);
    DifferenceOfMultiples(Turn(), Pow2(133), Pow2(105));
    LengthBelow(n, 158);
    SpacingDividesTo(n, 53, 105);
    MultipleOfMultiple(low, Spacing(n, 53, 0), Pow2(105));
    hide Spacing;
    NearestStays(n, Spacing(n, 53, 0), low);
    RoundsToTurn(Rounded(n, 53, 0), 24, 133);
  }

  lemma SpacingDividesTo(n: nat, digits: nat, m: nat)
    requires Length(n) <= m + digits
    ensures Pow2(m) % Spacing(n, digits, 0) == 0
  {
    hide Pow2, Length;
    PowersDivide(0, m);
    if Length(n) > digits { PowersDivide(Length(n) - digits, m); }
  }

  lemma JsBelowZero(t: F32)
    requires IsFinite32(t) && Beyond(t) < 0
    ensures JsWrapped(t) == Rounded(Turn() + Beyond(t), 24, 0) <==> -Beyond(t) > Pow2(104)
    ensures JsWrapped(t) == 0 || -Beyond(t) > Pow2(104)
  {
    hide Pow2, Turn, Beyond, Rounded, Fits;
    var r, turn, n := -Beyond(t), Turn(), Turn() + Beyond(t);
    TurnBounds();
    RoundsToTurn(n, 53, 104);
    RoundsToTurn(n, 24, 133);
    if r <= Pow2(104) {
      WholeTurn(turn);
      RoundedOfZero();
    } else {
      SmallRemainder(Rounded(n, 53, 0), turn);
      if r < Pow2(128) {
        CloseBelow(n);
      } else {
        RemainderIsExact(t);
        LargeAreMultiples(r, 105);
        TurnIsEven(105);
        DifferenceOfMultiples(turn, r, Pow2(105));
        SumFits(n);
      }
    }
  }

  lemma RoundedOfZero()
    ensures Rounded(0, 24, 0) == 0
  {
    NearestZero(Spacing(0, 24, 0));
  }

  lemma JsAtZero(t: F32)
    requires Beyond(t) == 0
    ensures JsWrapped(t) == 0
  {
    hide Pow2, Turn, Beyond, Rounded;
    TurnBounds();
    TurnIsEven(105);
    SumFits(Turn());
    WholeTurn(Turn());
    RoundedOfZero();
  }

  /** A remainder that the sum leaves as it is. */
  lemma JsAboveZero(t: F32)
    requires IsFinite32(t) && Beyond(t) > 0 && Beyond(t) % Pow2(105) == 0
    ensures JsWrapped(t) == Beyond(t)
  {
    hide Pow2, Turn, Beyond, Rounded, Fits;
    var r, turn, n: nat := Beyond(t), Turn(), Turn() + Beyond(t);
    TurnBounds();
    RemainderIsExact(t);
    FittingStays(r, 24, 0);
    TurnIsEven(105);
    SumOfMultiples(turn, r, Pow2(105));
    if n < Pow2(158) {
      SumFits(n);
    } else {
      LargeSum(r);
      FittingStays(n, 53, 0);
    }
    OneTurn(turn, r);
  }

  lemma OneTurn(turn: nat, r: nat)
    requires r < turn
    ensures (turn + r) % turn == r
  {
    DivMod(turn + r, turn, 1, r);
  }

  lemma LargeSum(r: nat)
    requires r < Turn() && Turn() + r >= Pow2(158) && Fits(r, 24, 0)
    ensures Fits(Turn() + r, 53, 0)
  {
    hide Pow2, Turn, Fits;
    TurnBounds();
    HalfTurn();
    LargeAreMultiples(r, 133);
    TurnIsEven(133);
    SumOfMultiples(Turn(), r, Pow2(133));
    Pow2Grows(159, 186);
    Pow2Adds(1, 158);
    Two();
    MultiplesFit(Turn() + r, 53, 133);
  }

  lemma HalfTurn()
    ensures Turn() + Pow2(156) < Pow2(158)
  {
    hide Pow2;
    SmallPowers();
    Pow2Adds(7, 149);
    Pow2Adds(2, 156);
    FourIsPow2();
  }

  lemma FourIsPow2()
    ensures Pow2(2) == 4
  {
    Two();
  }

  /** A remainder that the sum rounds away. */
  lemma JsLittleAbove(t: F32)
    requires IsFinite32(t) && Beyond(t) > 0 && Beyond(t) % Pow2(105) != 0
    ensures JsWrapped(t) != Beyond(t) && JsWrapped(t) < Turn() && Fits(JsWrapped(t), 24, 0)
  {
    hide Pow2, Turn, Beyond, Rounded, Nearest, Fits, Pattern, Magnitude, Length;
    var r: nat, turn, q := Beyond(t), Turn(), Pow2(105);
    var c := Nearest(r, q);
    RemainderIsExact(t);
    if r >= Pow2(128) { LargeAreMultiples(r, 105); }
    LittleSum(r);
    OneTurn(turn, c);
    FittingStays(c, 24, 0);
  }

  lemma LittleSum(r: nat)
    requires r < Pow2(128)
    ensures var c := Nearest(r, Pow2(105));
      Rounded(Turn() + r, 53, 0) == Turn() + c && c < Turn() && c % Pow2(105) == 0 && Fits(c, 24, 0)
  {
    hide Pow2, Turn, Spacing, Nearest, Fits;
    var q := Pow2(105);
    TurnBounds();
    TurnIsEven(105);
    LittleSpacing(r);
    NearestShifts(Turn(), r, q);
    PowersDivide(105, 128);
    NearestStays(r, q, Pow2(128));
    NearestIsMultiple(r, q);
    Pow2Grows(128, 129);
    MultiplesFit(Nearest(r, q), 24, 105);
  }

  lemma LittleSpacing(r: nat)
    requires r < Pow2(128)
    ensures Spacing(Turn() + r, 53, 0) == Pow2(105)
  {
    hide Pow2, Length, Turn;
    TurnBounds();
    Pow2Grows(133, 149);
    HundredFour();
    LengthIs(Turn() + r, 158);
  }

  /** There is room between a turn and the next power of two. */
  lemma HundredFour()
    ensures Turn() + Pow2(149) <= Pow2(158)
  {
    hide Pow2;
    SmallPowers();
    Pow2Adds(8, 149);
    Pow2Adds(1, 157);
    Two();
  }

  lemma PatternsDiffer(m: nat, n: nat)
    requires Fits(m, 24, 0) && Fits(n, 24, 0) && m <= Turn() && n <= Turn()
    ensures Pattern(m) == Pattern(n) <==> m == n
  {
    hide Pow2, Turn, Fits, Pattern, Magnitude, Length;
    TurnBounds();
    LengthBelow(m, 158);
    LengthBelow(n, 158);
    MagnitudeOfPattern(m);
    MagnitudeOfPattern(n);
  }

  /** On the same twist the two programs write the same bits if and only if it is none of these. */
  lemma WrapsAgreeIff(x: F64, t: F32)
    requires Same(x, t)
    ensures JsWrapTwist(x) == WrapTwist(t) <==> !Differs(t)
  {
    hide Pow2, Turn, Beyond, Fits, Pattern, JsWrapTwist, JsWrapped, Same, Rounded;
    assert IsFinite32(t) by { SameIsFinite(x, t); }
    var r := Beyond(t);
    JsWrapIs(x, t);
    PatternOfZero();
    if r < 0 {
      WrapBelowZero(t);
      JsBelowZero(t);
      ZeroFits();
      if -r <= Pow2(104) {
        PatternsDiffer(0, Rounded(Turn() + r, 24, 0));
      }
    } else if r == 0 {
      JsAtZero(t);
    } else {
      RemainderIsExact(t);
      if r % Pow2(105) == 0 {
        JsAboveZero(t);
      } else {
        JsLittleAbove(t);
        PatternsDiffer(JsWrapped(t), r);
      }
    }
  }

  lemma SameIsFinite(x: F64, t: F32)
    requires Same(x, t)
    ensures IsFinite64(x) && IsFinite32(t)
  {
  }

  lemma ZeroFits()
    ensures Fits(0, 24, 0)
  {
  }

  /** 2^-45 degrees in both formats. */
  const LITTLE: F32 := 0x2900_0000
  const LITTLE_64: F64 := 0x3D20_0000_0000_0000
  const NEG_LITTLE: F32 := 0xA900_0000
  const NEG_LITTLE_64: F64 := 0xBD20_0000_0000_0000

  /** One twist of each kind, and what becomes of it on the host and in the browser. */
  lemma TwistsDiffer()
    ensures Same(SIGN_64, NEG_ZERO) && WrapTwist(NEG_ZERO) == NEG_ZERO && JsWrapTwist(SIGN_64) == ZERO
    ensures Same(NEG_LITTLE_64, NEG_LITTLE) && WrapTwist(NEG_LITTLE) == THREE_SIXTY && JsWrapTwist(NEG_LITTLE_64) == ZERO
    ensures Same(LITTLE_64, LITTLE) && WrapTwist(LITTLE) == LITTLE && JsWrapTwist(LITTLE_64) == ZERO
  {
    hide Pow2, Turn, Magnitude, JsWrapTwist, JsWrapped, WrapTwist, Pattern, Rounded;
    TurnBounds();
    LittleValues();
    SmallRemainder(Pow2(104), Turn());
    MagnitudeOfZero(HIDDEN);
    MagnitudeOfZero(HIDDEN_64);
    NormalIsSame(NEG_LITTLE_64, NEG_LITTLE);
    NormalIsSame(LITTLE_64, LITTLE);
    NegativeZeroStays();
    JsWrapIs(SIGN_64, NEG_ZERO);
    JsWrapIs(NEG_LITTLE_64, NEG_LITTLE);
    JsWrapIs(LITTLE_64, LITTLE);
    PatternOfZero();
    JsAtZero(NEG_ZERO);
    JsBelowZero(NEG_LITTLE);
    WrapIs360Iff(NEG_LITTLE);
    WrapKeeps(LITTLE);
    LittleIsLost();
  }

  lemma LittleValues()
    ensures Value(LITTLE) == Pow2(104) == -Value(NEG_LITTLE)
  {
    hide Pow2;
    Hiddens();
    Pow2Adds(23, 81);
  }

  lemma LittleIsLost()
    requires Beyond(LITTLE) == Pow2(104)
    ensures JsWrapped(LITTLE) == 0
  {
    hide Pow2, Turn, Beyond, Rounded, Nearest;
    TurnBounds();
    LittleSum(Pow2(104));
    NearestOfHalf(Pow2(104));
    WholeTurn(Turn());
    RoundedOfZero();
  }

  lemma NearestOfHalf(half: nat)
    requires half > 0
    ensures Nearest(half, 2 * half) == 0
  {
    DivMod(half, 2 * half, 0, half);
  }
}
