/** What arrives of a message, field by field, in terms of what was put into that field: the documented places of
    the fields, messages that arrive as they are, and what becomes of all others. */
module Arrival {
  import opened Bytes
  import opened Rounding
  import opened Floats
  import opened Unicode
  import opened Protocol
  import opened BrowserCodec
  import WireTheorems
  import Twist

  /** A whole number as a multiple of 2^-149. */
  function Units(n: int): int { n * Pow2(149) }

  /** A pattern with a whole number of units: its digits, and as many units as they leave zeros. */
  lemma UnitValue(x: F32, exponent: nat, fraction: nat, zeros: nat, n: nat)
    requires 0 < exponent < 255 && fraction < HIDDEN && Size(x) == exponent * HIDDEN + fraction
    requires exponent - 1 + zeros == 149 && HIDDEN + fraction == n * Pow2(zeros)
    ensures Value(x) == if x < 0x8000_0000 then Units(n) else Units(-(n as int))
  {
    hide Pow2;
    DivMod(Size(x), HIDDEN, exponent, fraction);
    Pow2Adds(zeros, exponent - 1);
    Associate(n, Pow2(zeros), Pow2(exponent - 1));
    NegativeProduct(n, Pow2(149));
  }

  /** The bounds that the fields are kept within. */
  lemma Bounds()
    ensures Value(ZERO) == 0 && Value(ONE) == Units(1)
    ensures Value(NINETY) == Units(90) && Value(NEG_NINETY) == Units(-90)
    ensures Value(TEN_THOUSAND) == Units(10_000) && Value(NEG_TEN_THOUSAND) == Units(-10_000)
  {
    Zeros();
    hide Pow2, Value, Units;
    UnitValue(ONE, 127, 0, 23, 1);
    UnitValue(NINETY, 133, 0x34_0000, 17, 90);
    UnitValue(NEG_NINETY, 133, 0x34_0000, 17, 90);
    UnitValue(TEN_THOUSAND, 140, 0x1C_4000, 10, 10_000);
    UnitValue(NEG_TEN_THOUSAND, 140, 0x1C_4000, 10, 10_000);
    ZeroIsZero();
  }

  lemma Zeros()
    ensures Pow2(23) == 0x80_0000 && Pow2(17) == 0x2_0000 && Pow2(10) == 0x400
  {
    Hiddens();
    SmallPowers();
    assert Pow2(1) == 2 && Pow2(2) == 4;
    hide Pow2;
    Pow2Adds(8, 2);
    Pow2Adds(8, 8);
    Pow2Adds(16, 1);
  }

  // ----- where the fields are -----

  /** The header of a pointer batch, as the protocol's documentation has it. */
  lemma BatchLayout(b: Batch)
    requires |b.samples| <= MAX_SAMPLES
    ensures var p := BatchBytes(b);
      && |p| == 16 + 44 * |b.samples| && p[0] == 1 && p[1] == 1 && Field16(p, 2) == |b.samples|
      && Field32(p, 4) == b.sequence && Field64(p, 8) == b.sendTime
  {
    WireTheorems.BatchHeaderParses(b);
    hide BatchBytes;
  }

  /** One sample. */
  lemma SampleLayout(s: Sample)
    ensures var p := SampleBytes(s);
      && |p| == 44
      && p[0] == (match s.device case Pen => 1 case Touch => 2 case Mouse => 3)
      && p[1] == (match s.action case Down => 1 case Move => 2 case Up => 3 case Cancel => 4 case Hover => 5)
      && Field16(p, 2) == s.flags && Field32(p, 4) == s.pointerId && Field32(p, 8) == s.sequence
      && Field32(p, 12) == s.x && Field32(p, 16) == s.y && Field32(p, 20) == s.pressure
      && Field32(p, 24) == s.tiltX && Field32(p, 28) == s.tiltY && Field32(p, 32) == s.twist
      && Field64(p, 36) == s.time
  {
    WireTheorems.SampleParses(s);
    hide LeBytes;
  }

  lemma WheelLayout(w: Wheel)
    ensures var p := WheelBytes(w);
      && |p| == 32 && p[0] == 1 && p[1] == 2 && Field16(p, 2) == w.modifiers && Field32(p, 4) == w.sequence
      && Field32(p, 8) == w.x && Field32(p, 12) == w.y && Field32(p, 16) == w.deltaX && Field32(p, 20) == w.deltaY
      && Field64(p, 24) == w.time
  {
    WireTheorems.WheelParses(w);
    hide WheelBytes;
  }

  lemma KeyboardLayout(k: Keyboard)
    requires Encodable(KeyboardMessage(k))
    ensures var p := KeyboardBytes(k);
      && |p| == 24 + |Utf8(k.code)| + |Utf8(k.key)| && p[0] == 1 && p[1] == 3
      && p[2] == (match k.action case KeyDown => 1 case KeyUp => 2) && p[3] == k.location
      && Field16(p, 4) == k.modifiers && (p[6] != 0 <==> k.repeat) && Field32(p, 8) == k.sequence
      && Field64(p, 12) == k.time && Field16(p, 20) == |Utf8(k.code)| && Field16(p, 22) == |Utf8(k.key)|
      && p[24..] == Utf8(k.code) + Utf8(k.key)
  {
    WireTheorems.KeyboardHeaderParses(k);
    hide KeyboardBytes, Utf8;
  }

  lemma TextLayout(t: TextInput)
    requires Encodable(TextMessage(t))
    ensures var p := TextBytes(t);
      && |p| == 20 + |Utf8(t.text)| && p[0] == 1 && p[1] == 4 && Field32(p, 4) == t.sequence
      && Field64(p, 8) == t.time && Field32(p, 16) == |Utf8(t.text)| && p[20..] == Utf8(t.text)
  {
    WireTheorems.TextHeaderParses(t);
    hide TextBytes, Utf8;
  }

  lemma CommandLayout(c: CommandInput)
    ensures var p := CommandBytes(c);
      && |p| == 16 && p[0] == 1 && p[1] == 5
      && p[2] == (match c.command case AppNext => 1 case AppPrevious => 2 case MinimizeForeground => 3
                                  case TaskView => 4 case ResetInput => 5)
      && Field32(p, 4) == c.sequence && Field64(p, 8) == c.time
  {
    WireTheorems.CommandParses(c);
    hide LeBytes;
  }

  // ----- from the host's encoders -----

  /** What arrives is what was sent; moved to the nearer bound if it was out of them, and zero if it was no
      number. */
  predicate Arrives(got: F32, sent: F32, low: int, high: int) {
    && IsFinite32(got)
    && (if !IsFinite32(sent) then got == ZERO
        else if Value(sent) < low then Value(got) == low
        else if Value(sent) > high then Value(got) == high
        else got == sent)
  }

  predicate TimeArrives(got: F64, sent: F64) { got == if IsFinite64(sent) then sent else 0 }

  /** The exact remainder of the twist modulo 360; of a negative one what is nearest to it and 360, or zero if that
      is 360. */
  predicate TwistArrives(got: F32, sent: F32) {
    && IsFinite32(got)
    && (if !IsFinite32(sent) then got == ZERO
        else
          var r := Twist.Remainder(Value(sent), Twist.Turn());
          if r >= 0 then Value(got) == r
          else Value(got) == Rounded(Twist.Turn() + r, 24, 0) % Twist.Turn())
    && (IsFinite32(sent) && 0 <= Value(sent) < Twist.Turn() ==> got == sent)
  }

  lemma ClampedTwice(sent: F32, low: F32, high: F32)
    requires Key(low) <= Key(high) && IsFinite32(low) && IsFinite32(high) && Value(low) <= 0 <= Value(high)
    ensures Arrives(Clamp(FiniteOrZero(Clamp(FiniteOrZero(sent), low, high)), low, high), sent, Value(low), Value(high))
  {
    hide Value, Key;
    WireTheorems.ClampTwice(sent, low, high);
    ClampMeaning(FiniteOrZero(sent), low, high);
    ZeroIsZero();
  }

  lemma ZeroIsZero()
    ensures Value(ZERO) == 0
  {
    MagnitudeOfZero(HIDDEN);
  }

  lemma TwistTwice(sent: F32)
    ensures TwistArrives(Twist.WrapTwist(FiniteOrZero(Twist.WrapTwist(FiniteOrZero(sent)))), sent)
  {
    hide Twist.WrapTwist, Twist.Turn, Value, Rounded, Pow2, Fits, Length, Pattern;
    var t := FiniteOrZero(sent);
    ZeroIsZero();
    Twist.WrapMeaning(t);
    Twist.WrapIs360Iff(t);
    Twist.TurnBits();
    Twist.WrapOfTurn();
    if 0 <= Value(t) < Twist.Turn() { Twist.WrapKeeps(t); }
    if Twist.Beyond(t) < 0 {
      Twist.WrapBelowZero(t);
      var n := Rounded(Twist.Turn() + Twist.Beyond(t), 24, 0);
      if n < Twist.Turn() { Twist.SmallRemainder(n, Twist.Turn()); } else { Twist.WholeTurn(Twist.Turn()); }
    }
  }

  predicate SampleArrives(got: Sample, sent: Sample) {
    && got.device == sent.device && got.action == sent.action && got.flags == sent.flags
    && got.pointerId == sent.pointerId && got.sequence == sent.sequence
    && Arrives(got.x, sent.x, 0, Units(1)) && Arrives(got.y, sent.y, 0, Units(1))
    && Arrives(got.pressure, sent.pressure, 0, Units(1))
    && Arrives(got.tiltX, sent.tiltX, Units(-90), Units(90)) && Arrives(got.tiltY, sent.tiltY, Units(-90), Units(90))
    && TwistArrives(got.twist, sent.twist) && TimeArrives(got.time, sent.time)
  }

  predicate WheelArrives(got: Wheel, sent: Wheel) {
    && got.modifiers == sent.modifiers && got.sequence == sent.sequence
    && Arrives(got.x, sent.x, 0, Units(1)) && Arrives(got.y, sent.y, 0, Units(1))
    && Arrives(got.deltaX, sent.deltaX, Units(-10_000), Units(10_000))
    && Arrives(got.deltaY, sent.deltaY, Units(-10_000), Units(10_000))
    && TimeArrives(got.time, sent.time)
  }

  lemma SampleTwice(s: Sample)
    ensures SampleArrives(SanitizedSample(SanitizedSample(s)), s)
  {
    hide Clamp, Value, Arrives, TwistArrives, Twist.WrapTwist, FiniteOrZero, Pow2;
    Bounds();
    NegativeUnits(90);
    Finites();
    ClampedTwice(s.x, ZERO, ONE);
    ClampedTwice(s.y, ZERO, ONE);
    ClampedTwice(s.pressure, ZERO, ONE);
    ClampedTwice(s.tiltX, NEG_NINETY, NINETY);
    ClampedTwice(s.tiltY, NEG_NINETY, NINETY);
    TwistTwice(s.twist);
  }

  lemma NegativeUnits(n: nat)
    ensures Units(-(n as int)) == -Units(n) && Units(n) >= 0
  {
    NegativeProduct(n, Pow2(149));
    Ordered(0, n, Pow2(149));
  }

  lemma Finites()
    ensures IsFinite32(ZERO) && IsFinite32(ONE) && IsFinite32(NINETY) && IsFinite32(NEG_NINETY)
    ensures IsFinite32(TEN_THOUSAND) && IsFinite32(NEG_TEN_THOUSAND)
  {
  }

  lemma WheelTwice(w: Wheel)
    ensures WheelArrives(SanitizedWheel(SanitizedWheel(w)), w)
  {
    hide Clamp, Value, Arrives, FiniteOrZero, Pow2;
    Bounds();
    NegativeUnits(10_000);
    Finites();
    ClampedTwice(w.x, ZERO, ONE);
    ClampedTwice(w.y, ZERO, ONE);
    ClampedTwice(w.deltaX, NEG_TEN_THOUSAND, TEN_THOUSAND);
    ClampedTwice(w.deltaY, NEG_TEN_THOUSAND, TEN_THOUSAND);
  }

  /** What arrives of a message, all its fields. */
  predicate MessageArrives(got: Message, sent: Message) {
    match sent
    case PointerMessage(b) =>
      && got.PointerMessage? && got.batch.sequence == b.sequence && TimeArrives(got.batch.sendTime, b.sendTime)
      && |got.batch.samples| == |b.samples|
      && forall i :: 0 <= i < |b.samples| ==> SampleArrives(got.batch.samples[i], b.samples[i])
    case WheelMessage(w) => got.WheelMessage? && WheelArrives(got.wheel, w)
    case _ => got == sent
  }

  /** Every message the host can encode is decoded, and every field of it arrives. */
  lemma EveryFieldArrives(m: Message)
    requires Encodable(m)
    ensures Encode(m).Ok?
    ensures var r := Decode(Encode(m).value); r.Ok? && MessageArrives(r.value, m)
  {
    hide Decode, Encode, SanitizedSample, SanitizedWheel, SampleArrives, WheelArrives;
    WireTheorems.RoundTrip(m);
    match m
    case PointerMessage(b) =>
      forall i | 0 <= i < |b.samples|
        ensures SampleArrives(SanitizedSample(SanitizedSample(b.samples[i])), b.samples[i])
      {
        SampleTwice(b.samples[i]);
      }
    case WheelMessage(w) => WheelTwice(w);
    case _ =>
  }

  // ----- messages that arrive as they are -----

  predicate Within(x: F32, low: int, high: int) { IsFinite32(x) && low <= Value(x) <= high }

  predicate SampleWithin(s: Sample) {
    && Within(s.x, 0, Units(1)) && Within(s.y, 0, Units(1)) && Within(s.pressure, 0, Units(1))
    && Within(s.tiltX, Units(-90), Units(90)) && Within(s.tiltY, Units(-90), Units(90))
    && IsFinite32(s.twist) && 0 <= Value(s.twist) < Twist.Turn() && IsFinite64(s.time)
  }

  predicate MessageWithin(m: Message) {
    match m
    case PointerMessage(b) => IsFinite64(b.sendTime) && forall s :: s in b.samples ==> SampleWithin(s)
    case WheelMessage(w) =>
      && Within(w.x, 0, Units(1)) && Within(w.y, 0, Units(1)) && IsFinite64(w.time)
      && Within(w.deltaX, Units(-10_000), Units(10_000)) && Within(w.deltaY, Units(-10_000), Units(10_000))
    case _ => true
  }

  lemma SampleStays(got: Sample, sent: Sample)
    requires SampleArrives(got, sent) && SampleWithin(sent)
    ensures got == sent
  {
    hide Value, Pow2, Twist.Turn, Rounded, Units;
  }

  /** A message whose numbers are finite and within their bounds is decoded from its encoding exactly. */
  lemma MessagesWithinStay(m: Message)
    requires Encodable(m) && MessageWithin(m)
    ensures Encode(m).Ok? && Decode(Encode(m).value) == Ok(m)
  {
    hide Decode, Encode, SampleArrives, SampleWithin, Value, Pow2, Units;
    EveryFieldArrives(m);
    var got := Decode(Encode(m).value).value;
    match m
    case PointerMessage(b) =>
      forall i | 0 <= i < |b.samples| ensures got.batch.samples[i] == b.samples[i] {
        assert b.samples[i] in b.samples;
        SampleStays(got.batch.samples[i], b.samples[i]);
      }
      assert got.batch.samples == b.samples;
    case _ =>
  }

  // ----- from the browser's encoders -----

  /** A number as a multiple of 2^-1074, zero if it is none. */
  function Sent64(x: F64): int { if IsFinite64(x) then Value64(x) else 0 }

  /** What arrives is the number that was sent, moved to the nearer bound and rounded to binary32. */
  predicate JsArrives(got: F32, sent: F64, low: int, high: int) {
    && IsFinite32(got)
    && Value(got) * Pow2(SCALE) == RoundedSigned(Limited(Sent64(sent), low * Pow2(SCALE), high * Pow2(SCALE)))
  }

  /** The twist: both remainders and the sum of the browser, rounded to binary32; 360 arrives as zero. */
  predicate JsTwistArrives(got: F32, sent: F64) {
    IsFinite32(got) && Value(got) == InSingles(Twist.JsModulo(Sent64(sent))) % Twist.Turn()
  }

  lemma FittingScales(n: nat)
    requires Fits(n, 24, 0)
    ensures Fits(n * Pow2(SCALE), 24, SCALE)
  {
    hide Pow2, Spacing;
    if n == 0 {
      Remainderless(Spacing(0, 24, SCALE));
    } else {
      SpacingScales(n, 24, SCALE);
      DivModScales(n, Spacing(n, 24, 0), Pow2(SCALE));
    }
  }

  lemma Remainderless(q: nat)
    requires q > 0
    ensures 0 % q == 0
  {
  }

  lemma LimitFits(high: F32)
    requires IsFinite32(high) && high < 0x8000_0000
    ensures Value(high) >= 0 && Fits(Value(high), 24, 0) && Fits(Value(high) * Pow2(SCALE), 24, SCALE)
  {
    hide Pow2, Fits;
    FiniteSize(high);
    PatternOfMagnitude(Size(high));
    FittingScales(Magnitude(Size(high), HIDDEN));
  }

  /** Rounding a number within the bounds gives one within the bounds. */
  lemma SingleWithin(c: F64, high: F32)
    requires IsFinite64(c) && IsFinite32(high) && high < 0x8000_0000 && Value(high) <= Units(10_000)
    requires Magnitude(Size64(c), HIDDEN_64) <= Value(high) * Pow2(SCALE)
    ensures IsFinite32(Single(c)) && Value(Single(c)) * Pow2(SCALE) == RoundedSigned(Value64(c))
    ensures -Value(high) <= Value(Single(c)) <= Value(high) && (Value64(c) >= 0 ==> Value(Single(c)) >= 0)
  {
    hide Pow2, Fits, Rounded, Magnitude, InSingles, Single, Length, Value;
    var n, s := Magnitude(Size64(c), HIDDEN_64), Pow2(SCALE);
    LimitFits(high);
    RoundedBelow(n, Value(high) * s, 24, SCALE);
    InSinglesMeaning(n);
    NotLarger(InSingles(n), Value(high), s);
    SmallLength(InSingles(n));
    SingleMeaning(c);
    SignedBound(Value(Single(c)), InSingles(n), s);
  }

  lemma NotLarger(a: nat, b: nat, s: nat)
    requires s > 0
    ensures a * s <= b * s <==> a <= b
  {
    Compared(b, a, s);
  }

  lemma SignedBound(v: int, k: nat, s: nat)
    requires s > 0
    ensures v * s == k * s ==> v == k
    ensures v * s == -(k * s) ==> v == -(k as int)
  {
    NegativeProduct(v, s);
    if v >= 0 { Compared(v, k, s); Ordered(0, v, s); Ordered(1, v, s); Ordered(0, k, s); Ordered(1, k, s); }
    else { Compared(-v, k, s); Ordered(1, -v, s); Ordered(0, k, s); }
  }

  lemma SmallLength(k: nat)
    requires k <= Units(10_000)
    ensures Length(k) <= 277
  {
    hide Pow2, Length;
    Zeros();
    SmallPowers();
    Pow2Adds(17, 149);
    Ordered(10_000, Pow2(17), Pow2(149));
    Pow2Grows(166, 277);
    LengthBelow(k, 277);
  }

  /** A field with equal bounds on both sides, or none below zero. */
  lemma ClampedArrives(sent: F64, low64: F64, low: F32, high64: F64, high: F32)
    requires Same(low64, low) && Same(high64, high) && high < 0x8000_0000 && 0 < Value(high) <= Units(10_000)
    requires Value(low) == 0 || Value(low) == -Value(high)
    ensures var got := ClampedSingle(sent, low64, high64);
      JsArrives(got, sent, Value(low), Value(high)) && Value(low) <= Value(got) <= Value(high)
  {
    hide Pow2, Value, Value64, Same, Single, JsClamp, Magnitude, Key64, RoundedSigned;
    SameIsFinite(low64, low);
    SameIsFinite(high64, high);
    SameValues(low64, low);
    SameValues(high64, high);
    SignedCompared(Value(low), Value(high), Pow2(SCALE));
    KeyOrdersValues64(low64, high64);
    KeyOrdersValues64(high64, low64);
    ZeroIsZero64();
    var x := FiniteOrZero64(sent);
    var c := JsClamp(x, low64, high64);
    JsClampMeaning(x, low64, high64);
    NegativeProduct(Value(high), Pow2(SCALE));
    SizeOfValue(c);
    assert IsFinite64(c);
    SingleWithin(c, high);
  }

  lemma SameIsFinite(d: F64, f: F32)
    requires Same(d, f)
    ensures IsFinite64(d) && IsFinite32(f)
  {
  }

  lemma ZeroIsZero64()
    ensures Value64(0) == 0
  {
    MagnitudeOfZero(HIDDEN_64);
  }

  lemma SizeOfValue(c: F64)
    ensures Magnitude(Size64(c), HIDDEN_64) == if Value64(c) >= 0 then Value64(c) else -Value64(c)
  {
    hide Magnitude;
  }

  /** The host clamps again, which changes nothing within the bounds. */
  lemma ClampStays(got: F32, low: F32, high: F32)
    requires IsFinite32(got) && Value(low) <= Value(got) <= Value(high) && Key(low) <= Key(high)
    ensures Clamp(FiniteOrZero(got), low, high) == got
  {
    hide Value, Key;
    ClampMeaning(got, low, high);
  }

  lemma FieldArrives(sent: F64, low64: F64, low: F32, high64: F64, high: F32)
    requires Same(low64, low) && Same(high64, high) && high < 0x8000_0000 && 0 < Value(high) <= Units(10_000)
    requires Value(low) == 0 || Value(low) == -Value(high)
    ensures JsArrives(Clamp(FiniteOrZero(ClampedSingle(sent, low64, high64)), low, high), sent, Value(low), Value(high))
  {
    hide Value, Key, Same, ClampedSingle, JsArrives, Units;
    ClampedArrives(sent, low64, low, high64, high);
    KeyOrdersValues(high, low);
    JsArrivesFinite(ClampedSingle(sent, low64, high64), sent, Value(low), Value(high));
    ClampStays(ClampedSingle(sent, low64, high64), low, high);
  }

  lemma JsArrivesFinite(got: F32, sent: F64, low: int, high: int)
    requires JsArrives(got, sent, low, high)
    ensures IsFinite32(got)
  {
    hide Pow2, RoundedSigned, Value;
  }

  lemma JsTwistTwice(sent: F64)
    ensures JsTwistArrives(Twist.WrapTwist(FiniteOrZero(Twist.JsWrapTwist(FiniteOrZero64(sent)))), sent)
  {
    hide Pow2, Value, Value64, Pattern, Twist.Turn, Twist.Turn64, Twist.JsModulo, Twist.WrapTwist, InSingles, Fits, Length, Rounded;
    ZeroIsZero64();
    Twist.JsModuloBounds(Sent64(sent));
    var k := InSingles(Twist.JsModulo(Sent64(sent)));
    Twist.TurnBits();
    if k < Twist.Turn() {
      Twist.WrappedOnce(k);
      Twist.SmallRemainder(k, Twist.Turn());
    } else {
      Twist.WrapOfTurn();
      Twist.WholeTurn(Twist.Turn());
      ZeroIsZero();
    }
  }

  predicate JsSampleArrives(got: Sample, sent: JsSample) {
    && got.device == sent.device && got.action == sent.action && got.flags == sent.flags % 0x1_0000
    && got.pointerId == sent.pointerId % TWO32 && got.sequence == sent.sequence % TWO32
    && JsArrives(got.x, sent.x, 0, Units(1)) && JsArrives(got.y, sent.y, 0, Units(1))
    && JsArrives(got.pressure, sent.pressure, 0, Units(1))
    && JsArrives(got.tiltX, sent.tiltX, Units(-90), Units(90)) && JsArrives(got.tiltY, sent.tiltY, Units(-90), Units(90))
    && JsTwistArrives(got.twist, sent.twist) && TimeArrives(got.time, sent.time)
  }

  predicate JsWheelArrives(got: Wheel, sent: JsWheel) {
    && got.modifiers == sent.modifiers % 0x1_0000 && got.sequence == sent.sequence % TWO32
    && JsArrives(got.x, sent.x, 0, Units(1)) && JsArrives(got.y, sent.y, 0, Units(1))
    && JsArrives(got.deltaX, sent.deltaX, Units(-10_000), Units(10_000))
    && JsArrives(got.deltaY, sent.deltaY, Units(-10_000), Units(10_000))
    && TimeArrives(got.time, sent.time)
  }

  lemma ConstantsArePositive()
    ensures 0 < Units(1) <= Units(90) <= Units(10_000)
  {
    Positive(1, Pow2(149));
    Ordered(1, 90, Pow2(149));
    Ordered(90, 10_000, Pow2(149));
  }

  lemma JsSampleTwice(s: JsSample)
    ensures JsSampleArrives(SanitizedSample(JsSanitized(s)), s)
  {
    hide Clamp, Value, JsArrives, JsTwistArrives, Twist.WrapTwist, Twist.JsWrapTwist, FiniteOrZero, Units, Pow2, Same, ClampedSingle;
    Bounds();
    ConstantsAreSame();
    ConstantsArePositive();
    NegativeUnits(90);
    FieldArrives(s.x, 0, ZERO, ONE_64, ONE);
    FieldArrives(s.y, 0, ZERO, ONE_64, ONE);
    FieldArrives(s.pressure, 0, ZERO, ONE_64, ONE);
    FieldArrives(s.tiltX, NEG_NINETY_64, NEG_NINETY, NINETY_64, NINETY);
    FieldArrives(s.tiltY, NEG_NINETY_64, NEG_NINETY, NINETY_64, NINETY);
    JsTwistTwice(s.twist);
  }

  lemma JsWheelTwice(w: JsWheel)
    ensures JsWheelArrives(SanitizedWheel(JsSanitizedWheel(w)), w)
  {
    hide Clamp, Value, JsArrives, FiniteOrZero, Units, Pow2, Same, ClampedSingle;
    Bounds();
    ConstantsAreSame();
    ConstantsArePositive();
    NegativeUnits(10_000);
    FieldArrives(w.x, 0, ZERO, ONE_64, ONE);
    FieldArrives(w.y, 0, ZERO, ONE_64, ONE);
    FieldArrives(w.deltaX, NEG_TEN_THOUSAND_64, NEG_TEN_THOUSAND, TEN_THOUSAND_64, TEN_THOUSAND);
    FieldArrives(w.deltaY, NEG_TEN_THOUSAND_64, NEG_TEN_THOUSAND, TEN_THOUSAND_64, TEN_THOUSAND);
  }

  /** Every pointer batch the browser encodes is decoded by the host, and every field of it arrives. */
  lemma EveryBrowserFieldArrives(b: JsBatch)
    requires |b.samples| <= MAX_SAMPLES
    ensures var r := Decode(BatchBytes(JsSanitizedBatch(b)));
      && r.Ok? && r.value.PointerMessage? && |r.value.batch.samples| == |b.samples|
      && r.value.batch.sequence == b.sequence % TWO32 && TimeArrives(r.value.batch.sendTime, b.sendTime)
      && forall i :: 0 <= i < |b.samples| ==> JsSampleArrives(r.value.batch.samples[i], b.samples[i])
  {
    hide BatchBytes, Parse, SanitizedSample, JsSanitized, JsSampleArrives;
    WireTheorems.LayoutParses(PointerMessage(JsSanitizedBatch(b)));
    forall i | 0 <= i < |b.samples| ensures JsSampleArrives(SanitizedSample(JsSanitized(b.samples[i])), b.samples[i]) {
      JsSampleTwice(b.samples[i]);
    }
  }

  /** Every wheel message. */
  lemma EveryBrowserWheelArrives(w: JsWheel)
    ensures var r := Decode(WheelBytes(JsSanitizedWheel(w)));
      r.Ok? && r.value.WheelMessage? && JsWheelArrives(r.value.wheel, w)
  {
    hide WheelBytes, Parse, SanitizedWheel, JsSanitizedWheel, JsWheelArrives;
    WireTheorems.LayoutParses(WheelMessage(JsSanitizedWheel(w)));
    JsWheelTwice(w);
  }

  /** What the host reads of a key event: every integer reduced to its width, the time in whole milliseconds, the
      names as `TextEncoder` sees them. */
  lemma EveryBrowserKeyArrives(k: JsKeyboard)
    requires Encodable(KeyboardMessage(TypedKeyboard(k)))
    ensures var r := Decode(KeyboardBytes(TypedKeyboard(k)));
      && r.Ok? && r.value.KeyboardMessage?
      && var got := r.value.keyboard;
         && got.action == k.action && got.location == k.location % 0x100 && got.repeat == k.repeat
         && got.modifiers == k.modifiers % 0x1_0000 && got.sequence == k.sequence % TWO32
         && got.time == Milliseconds(k.time) && got.code == WellFormed(k.code) && got.key == WellFormed(k.key)
  {
    hide KeyboardBytes, Parse, Milliseconds, WellFormed;
    WireTheorems.LayoutParses(KeyboardMessage(TypedKeyboard(k)));
  }

  lemma EveryBrowserTextArrives(sequence: int, time: F64, text: seq<U16>)
    requires Encodable(TextMessage(TypedText(sequence, time, text)))
    ensures Decode(TextBytes(TypedText(sequence, time, text))) ==
      Ok(TextMessage(TextInput(sequence % TWO32, Milliseconds(time), WellFormed(text))))
  {
    hide TextBytes, Parse, Milliseconds, WellFormed;
    WireTheorems.LayoutParses(TextMessage(TypedText(sequence, time, text)));
  }

  lemma EveryBrowserCommandArrives(command: Command, sequence: int, time: F64)
    ensures Decode(CommandBytes(TypedCommand(command, sequence, time))) ==
      Ok(CommandMessage(CommandInput(command, sequence % TWO32, Milliseconds(time))))
  {
    hide CommandBytes, Parse, Milliseconds;
    WireTheorems.LayoutParses(CommandMessage(TypedCommand(command, sequence, time)));
  }

  /** A time that is not negative and not too large is written as the nearest millisecond, from halfway the next. */
  lemma TimesAreNearest(time: F64)
    requires IsFinite64(time) && 0 <= Value64(time) && 2 * Value64(time) + One64() < 2 * TWO64 * One64()
    ensures 2 * Milliseconds(time) * One64() - One64() <= 2 * Value64(time) < 2 * Milliseconds(time) * One64() + One64()
  {
    hide One64, Value64;
    NearestQuotient(Value64(time), One64(), TWO64);
  }

  lemma NearestQuotient(v: nat, u: nat, limit: nat)
    requires u > 0 && 2 * v + u < 2 * limit * u
    ensures var n := (2 * v + u) / (2 * u); n < limit && 2 * n * u - u <= 2 * v < 2 * n * u + u
  {
    var n := (2 * v + u) / (2 * u);
    Parts(2 * v + u, 2 * u);
    Associate(n, 2, u);
    Associate(2, n, u);
    Associate(limit, 2, u);
    Ordered(limit, n, 2 * u);
  }
}
