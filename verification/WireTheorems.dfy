/** The codec as a whole: decoding undoes encoding, and no other length is accepted. */
module WireTheorems {
  import opened Bytes
  import opened Floats
  import opened Unicode
  import opened Protocol
  import Twist

  /** Reads one field off the front of what is left of a packet. */
  lemma Next(b: seq<U8>, at: nat, x: nat, n: nat, rest: seq<U8>)
    requires at <= |b| && b[at..] == LeBytes(x, n) + rest
    requires x < Pow256(n)
    ensures at + n <= |b| && Field(b, at, n) == x && b[at + n..] == rest
  {
    assert b[at..at + n] == b[at..][..n] == LeBytes(x, n);
    assert b[at + n..] == b[at..][n..] == rest;
    LeReadsBack(x, n);
  }

  lemma SampleParses(s: Sample)
    ensures ParseSample(SampleBytes(s), 0) == Ok(s)
  {
    var b := SampleBytes(s);
    Widths();
    hide LeBytes;
    var r9 := LeBytes(s.time, 8) + [];
    var r8 := LeBytes(s.twist, 4) + r9;
    var r7 := LeBytes(s.tiltY, 4) + r8;
    var r6 := LeBytes(s.tiltX, 4) + r7;
    var r5 := LeBytes(s.pressure, 4) + r6;
    var r4 := LeBytes(s.y, 4) + r5;
    var r3 := LeBytes(s.x, 4) + r4;
    var r2 := LeBytes(s.sequence, 4) + r3;
    var r1 := LeBytes(s.pointerId, 4) + r2;
    Next(b, 2, s.flags, 2, r1);
    Next(b, 4, s.pointerId, 4, r2);
    Next(b, 8, s.sequence, 4, r3);
    Next(b, 12, s.x, 4, r4);
    Next(b, 16, s.y, 4, r5);
    Next(b, 20, s.pressure, 4, r6);
    Next(b, 24, s.tiltX, 4, r7);
    Next(b, 28, s.tiltY, 4, r8);
    Next(b, 32, s.twist, 4, r9);
    Next(b, 36, s.time, 8, []);
  }

  lemma FieldIsLocal(b: seq<U8>, at: nat, len: nat, k: nat, n: nat)
    requires at + len <= |b| && k + n <= len
    ensures Field(b[at..at + len], k, n) == Field(b, at + k, n)
  {
    var left, right := b[at..at + len][k..k + n], b[at + k..at + k + n];
    assert forall i :: 0 <= i < n ==> left[i] == right[i];
    assert left == right;
  }

  /** Parsing a sample looks at its own 44 bytes only. */
  lemma SampleIsLocal(b: seq<U8>, at: nat)
    requires at + SAMPLE_LEN <= |b|
    ensures ParseSample(b, at) == ParseSample(b[at..at + SAMPLE_LEN], 0)
  {
    FieldIsLocal(b, at, SAMPLE_LEN, 2, 2);
    FieldIsLocal(b, at, SAMPLE_LEN, 4, 4);
    FieldIsLocal(b, at, SAMPLE_LEN, 8, 4);
    FieldIsLocal(b, at, SAMPLE_LEN, 12, 4);
    FieldIsLocal(b, at, SAMPLE_LEN, 16, 4);
    FieldIsLocal(b, at, SAMPLE_LEN, 20, 4);
    FieldIsLocal(b, at, SAMPLE_LEN, 24, 4);
    FieldIsLocal(b, at, SAMPLE_LEN, 28, 4);
    FieldIsLocal(b, at, SAMPLE_LEN, 32, 4);
    FieldIsLocal(b, at, SAMPLE_LEN, 36, 8);
  }

  lemma {:induction false} SamplesParse(b: seq<U8>, i: nat, samples: seq<Sample>)
    requires |b| == BATCH_HEADER + SAMPLE_LEN * (i + |samples|)
    requires b[BATCH_HEADER + SAMPLE_LEN * i..] == SamplesBytes(samples)
    ensures ParseSamples(b, i, i + |samples|) == Ok(samples)
    decreases |samples|
  {
    hide ParseSample, SampleBytes;
    if samples != [] {
      var at := BATCH_HEADER + SAMPLE_LEN * i;
      assert b[at..at + SAMPLE_LEN] == b[at..][..SAMPLE_LEN] == SampleBytes(samples[0]);
      SampleIsLocal(b, at);
      SampleParses(samples[0]);
      assert b[at + SAMPLE_LEN..] == b[at..][SAMPLE_LEN..] == SamplesBytes(samples[1..]);
      SamplesParse(b, i + 1, samples[1..]);
      assert [samples[0]] + samples[1..] == samples;
    }
  }

  lemma BatchHeaderParses(batch: Batch)
    requires |batch.samples| <= MAX_SAMPLES
    ensures var b := BatchBytes(batch);
      b[0] == VERSION && b[1] == 1 && Field16(b, 2) == |batch.samples| && Field32(b, 4) == batch.sequence &&
      Field64(b, 8) == batch.sendTime && b[BATCH_HEADER..] == SamplesBytes(batch.samples)
  {
    hide SamplesBytes;
    var b := BatchBytes(batch);
    Widths();
    hide LeBytes;
    var r2 := LeBytes(batch.sendTime, 8) + SamplesBytes(batch.samples);
    var r1 := LeBytes(batch.sequence, 4) + r2;
    Next(b, 2, |batch.samples|, 2, r1);
    Next(b, 4, batch.sequence, 4, r2);
    Next(b, 8, batch.sendTime, 8, SamplesBytes(batch.samples));
  }

  lemma BatchParses(batch: Batch)
    requires |batch.samples| <= MAX_SAMPLES
    ensures ParseBatch(BatchBytes(batch)) == Ok(batch)
  {
    hide BatchBytes, SamplesBytes, ParseSamples;
    BatchHeaderParses(batch);
    SamplesParse(BatchBytes(batch), 0, batch.samples);
  }

  lemma WheelParses(w: Wheel)
    ensures WheelBytes(w)[0] == VERSION && WheelBytes(w)[1] == 2
    ensures ParseWheel(WheelBytes(w)) == Ok(w)
  {
    var b := WheelBytes(w);
    Widths();
    hide LeBytes;
    var r6 := LeBytes(w.time, 8) + [];
    var r5 := LeBytes(w.deltaY, 4) + r6;
    var r4 := LeBytes(w.deltaX, 4) + r5;
    var r3 := LeBytes(w.y, 4) + r4;
    var r2 := LeBytes(w.x, 4) + r3;
    var r1 := LeBytes(w.sequence, 4) + r2;
    Next(b, 2, w.modifiers, 2, r1);
    Next(b, 4, w.sequence, 4, r2);
    Next(b, 8, w.x, 4, r3);
    Next(b, 12, w.y, 4, r4);
    Next(b, 16, w.deltaX, 4, r5);
    Next(b, 20, w.deltaY, 4, r6);
    Next(b, 24, w.time, 8, []);
  }

  lemma KeyboardHeaderParses(k: Keyboard)
    requires Encodable(KeyboardMessage(k))
    ensures var b := KeyboardBytes(k);
      b[0] == VERSION && b[1] == 3 && b[2] == KeyActionCode(k.action) && b[3] == k.location &&
      (b[6] != 0 <==> k.repeat) && Field16(b, 4) == k.modifiers && Field32(b, 8) == k.sequence &&
      Field64(b, 12) == k.time && Field16(b, 20) == |Utf8(k.code)| && Field16(b, 22) == |Utf8(k.key)| &&
      b[KEYBOARD_HEADER..] == Utf8(k.code) + Utf8(k.key)
  {
    hide Utf8;
    var b := KeyboardBytes(k);
    var body := Utf8(k.code) + Utf8(k.key);
    Widths();
    hide LeBytes;
    var r4 := LeBytes(|Utf8(k.key)|, 2) + body;
    var r3 := LeBytes(|Utf8(k.code)|, 2) + r4;
    var r2 := LeBytes(k.time, 8) + r3;
    var r1 := LeBytes(k.sequence, 4) + r2;
    var r0 := [if k.repeat then 1 else 0, 0] + r1;
    Next(b, 4, k.modifiers, 2, r0);
    assert b[6] == b[6..][0] == r0[0];
    assert b[8..] == b[6..][2..] == r1;
    Next(b, 8, k.sequence, 4, r2);
    Next(b, 12, k.time, 8, r3);
    Next(b, 20, |Utf8(k.code)|, 2, r4);
    Next(b, 22, |Utf8(k.key)|, 2, body);
  }

  lemma KeyboardParses(k: Keyboard)
    requires Encodable(KeyboardMessage(k))
    ensures ParseKeyboard(KeyboardBytes(k)) == Ok(k)
  {
    hide KeyboardBytes, Utf8, FromUtf8;
    var b := KeyboardBytes(k);
    KeyboardHeaderParses(k);
    var codeLen := |Utf8(k.code)|;
    assert b[KEYBOARD_HEADER..KEYBOARD_HEADER + codeLen] == b[KEYBOARD_HEADER..][..codeLen] == Utf8(k.code);
    assert b[KEYBOARD_HEADER + codeLen..] == b[KEYBOARD_HEADER..][codeLen..] == Utf8(k.key);
    Utf8RoundTrip(k.code);
    Utf8RoundTrip(k.key);
  }

  lemma TextHeaderParses(t: TextInput)
    requires Encodable(TextMessage(t))
    ensures var b := TextBytes(t);
      b[0] == VERSION && b[1] == 4 && Field32(b, 4) == t.sequence && Field64(b, 8) == t.time &&
      Field32(b, 16) == |Utf8(t.text)| && b[TEXT_HEADER..] == Utf8(t.text)
  {
    hide Utf8;
    var b := TextBytes(t);
    Widths();
    hide LeBytes;
    var r2 := LeBytes(|Utf8(t.text)|, 4) + Utf8(t.text);
    var r1 := LeBytes(t.time, 8) + r2;
    Next(b, 4, t.sequence, 4, r1);
    Next(b, 8, t.time, 8, r2);
    Next(b, 16, |Utf8(t.text)|, 4, Utf8(t.text));
  }

  lemma TextParses(t: TextInput)
    requires Encodable(TextMessage(t))
    ensures ParseText(TextBytes(t)) == Ok(t)
  {
    hide TextBytes, Utf8, FromUtf8;
    TextHeaderParses(t);
    Utf8RoundTrip(t.text);
  }

  lemma CommandParses(c: CommandInput)
    ensures CommandBytes(c)[0] == VERSION && CommandBytes(c)[1] == 5
    ensures ParseCommand(CommandBytes(c)) == Ok(c)
  {
    var b := CommandBytes(c);
    Widths();
    hide LeBytes;
    var r1 := LeBytes(c.time, 8) + [];
    Next(b, 4, c.sequence, 4, r1);
    Next(b, 8, c.time, 8, []);
  }

  /** Field by field, the parser undoes the layout. */
  lemma LayoutParses(m: Message)
    requires Encodable(m)
    ensures Parse(Layout(m)) == Ok(m)
  {
    hide BatchBytes, WheelBytes, KeyboardBytes, TextBytes, CommandBytes, Utf8;
    hide ParseBatch, ParseWheel, ParseKeyboard, ParseText, ParseCommand;
    match m
    case PointerMessage(b) => BatchParses(b); BatchHeaderParses(b);
    case WheelMessage(w) => WheelParses(w);
    case KeyboardMessage(k) => KeyboardParses(k); KeyboardHeaderParses(k);
    case TextMessage(t) => TextParses(t); TextHeaderParses(t);
    case CommandMessage(c) => CommandParses(c);
  }

  /** Different messages have different packets. */
  lemma LayoutIsInjective(m: Message, n: Message)
    requires Encodable(m) && Encodable(n)
    ensures Layout(m) == Layout(n) <==> m == n
  {
    LayoutParses(m);
    LayoutParses(n);
  }

  lemma SanitizedTwice(m: Message)
    ensures Encodable(SanitizedForSending(m)) <==> Encodable(m)
    ensures Sanitized(SanitizedForSending(m)) == Sanitized(Sanitized(m))
  {
  }

  /** Every message the encoders accept comes out of the decoder, sanitised once by each side. */
  lemma RoundTrip(m: Message)
    requires Encodable(m)
    ensures Encode(m).Ok?
    ensures Decode(Encode(m).value) == Ok(Sanitized(Sanitized(m)))
  {
    SanitizedTwice(m);
    LayoutParses(SanitizedForSending(m));
  }

  /** No twist is so little below a whole number of turns that wrapping rounds it up to 360. */
  predicate TwistsAreStable(m: Message) {
    m.PointerMessage? ==> forall s :: s in m.batch.samples ==> !Twist.RoundsUp(FiniteOrZero(s.twist))
  }

  lemma ClampTwice(x: F32, low: F32, high: F32)
    requires Key(low) <= Key(high) && IsFinite32(low) && IsFinite32(high)
    ensures var once := Clamp(FiniteOrZero(x), low, high); Clamp(FiniteOrZero(once), low, high) == once
  {
  }

  lemma SanitizedSampleTwice(s: Sample)
    ensures var once := SanitizedSample(s);
      SanitizedSample(once) == once <==> !Twist.RoundsUp(FiniteOrZero(s.twist))
  {
    ClampTwice(s.x, ZERO, ONE);
    ClampTwice(s.y, ZERO, ONE);
    ClampTwice(s.pressure, ZERO, ONE);
    ClampTwice(s.tiltX, NEG_NINETY, NINETY);
    ClampTwice(s.tiltY, NEG_NINETY, NINETY);
    hide Clamp, Twist.WrapTwist, Twist.RoundsUp;
    Twist.WrapIsBounded(FiniteOrZero(s.twist));
    Twist.WrapIsStableIff(FiniteOrZero(s.twist));
  }

  lemma SanitizedSamplesTwice(samples: seq<Sample>)
    ensures var once := SanitizedSamples(samples);
      SanitizedSamples(once) == once <==>
      forall s :: s in samples ==> !Twist.RoundsUp(FiniteOrZero(s.twist))
  {
    hide SanitizedSample, Twist.RoundsUp, FiniteOrZero;
    var once := SanitizedSamples(samples);
    var twice := SanitizedSamples(once);
    forall i | 0 <= i < |samples|
      ensures twice[i] == once[i] <==> !Twist.RoundsUp(FiniteOrZero(samples[i].twist))
    {
      SanitizedSampleTwice(samples[i]);
    }
    if twice == once {
      forall s | s in samples ensures !Twist.RoundsUp(FiniteOrZero(s.twist)) {
        var i :| 0 <= i < |samples| && samples[i] == s;
        assert twice[i] == once[i];
      }
    }
    if forall s :: s in samples ==> !Twist.RoundsUp(FiniteOrZero(s.twist)) {
      forall i | 0 <= i < |samples| ensures twice[i] == once[i] {
        assert samples[i] in samples;
      }
    }
  }

  lemma SanitizedWheelTwice(w: Wheel)
    ensures SanitizedWheel(SanitizedWheel(w)) == SanitizedWheel(w)
  {
    ClampTwice(w.x, ZERO, ONE);
    ClampTwice(w.y, ZERO, ONE);
    ClampTwice(w.deltaX, NEG_TEN_THOUSAND, TEN_THOUSAND);
    ClampTwice(w.deltaY, NEG_TEN_THOUSAND, TEN_THOUSAND);
    hide Clamp, FiniteOrZero;
  }

  lemma SanitizedIsStable(m: Message)
    ensures Sanitized(Sanitized(m)) == Sanitized(m) <==> TwistsAreStable(m)
  {
    hide SanitizedWheel, Clamp, SanitizedSample, SanitizedSamples, Twist.RoundsUp;
    match m
    case PointerMessage(b) => SanitizedSamplesTwice(b.samples);
    case WheelMessage(w) => SanitizedWheelTwice(w);
    case _ =>
  }

  /** The receiver sees exactly the sanitised message if and only if no twist is rounded up to 360; every
      other field, and every other twist, is stable under a second sanitising. */
  lemma RoundTripIsExact(m: Message)
    requires Encodable(m)
    ensures Encode(m).Ok?
    ensures Decode(Encode(m).value) == Ok(Sanitized(m)) <==> TwistsAreStable(m)
  {
    hide Sanitized, Encode, Decode, TwistsAreStable, Encodable;
    RoundTrip(m);
    SanitizedIsStable(m);
  }

  /** A pen twisted by -2^-16 degrees: its twist is sanitised to 360 by the sender and to 0 by the receiver. */
  lemma ATwistIsLost(s: Sample)
    requires s.twist == Twist.A_LITTLE_LESS
    ensures var m := PointerMessage(Batch(0, 0, [s]));
      && Encodable(m) && Encode(m).Ok? && Decode(Encode(m).value) != Ok(Sanitized(m))
      && Sanitized(m).batch.samples[0].twist == Twist.THREE_SIXTY
      && Sanitized(Sanitized(m)).batch.samples[0].twist == ZERO
  {
    hide Encode, Decode, Clamp, Twist.WrapTwist, Twist.RoundsUp;
    Twist.ALittleLessRoundsUp();
    var m := PointerMessage(Batch(0, 0, [s]));
    assert s in m.batch.samples;
    RoundTripIsExact(m);
  }

  lemma SharedField(b: seq<U8>, c: seq<U8>, at: nat, n: nat)
    requires b <= c || c <= b
    requires at + n <= |b| && at + n <= |c|
    ensures Field(b, at, n) == Field(c, at, n)
  {
    assert b[at..at + n] == c[at..at + n];
  }

  lemma BatchLengthIsFixed(batch: Batch, b: seq<U8>)
    requires |batch.samples| <= MAX_SAMPLES
    requires b < BatchBytes(batch) || BatchBytes(batch) < b
    ensures ParseBatch(b).Err?
  {
    hide BatchBytes, ParseSamples;
    BatchHeaderParses(batch);
    if |b| >= BATCH_HEADER {
      SharedField(b, BatchBytes(batch), 2, 2);
    }
  }

  lemma KeyboardLengthIsFixed(k: Keyboard, b: seq<U8>)
    requires Encodable(KeyboardMessage(k))
    requires b < KeyboardBytes(k) || KeyboardBytes(k) < b
    ensures ParseKeyboard(b).Err?
  {
    hide KeyboardBytes, Utf8, TextFrom;
    KeyboardHeaderParses(k);
    if |b| >= KEYBOARD_HEADER {
      SharedField(b, KeyboardBytes(k), 20, 2);
      SharedField(b, KeyboardBytes(k), 22, 2);
    }
  }

  lemma TextLengthIsFixed(t: TextInput, b: seq<U8>)
    requires Encodable(TextMessage(t))
    requires b < TextBytes(t) || TextBytes(t) < b
    ensures ParseText(b).Err?
  {
    hide TextBytes, Utf8, TextFrom;
    TextHeaderParses(t);
    if |b| >= TEXT_HEADER {
      SharedField(b, TextBytes(t), 16, 4);
    }
  }

  /** What the first two bytes decide. */
  lemma Dispatch(b: seq<U8>)
    requires |b| >= 2 && b[0] == VERSION
    ensures b[1] == 1 && ParseBatch(b).Err? ==> Parse(b).Err?
    ensures b[1] == 2 && ParseWheel(b).Err? ==> Parse(b).Err?
    ensures b[1] == 3 && ParseKeyboard(b).Err? ==> Parse(b).Err?
    ensures b[1] == 4 && ParseText(b).Err? ==> Parse(b).Err?
    ensures b[1] == 5 && ParseCommand(b).Err? ==> Parse(b).Err?
  {
    hide ParseBatch, ParseWheel, ParseKeyboard, ParseText, ParseCommand;
  }

  /** A proper prefix of a packet, or a packet with bytes after it, is always refused. */
  lemma OtherLengthsAreRefused(m: Message, b: seq<U8>)
    requires Encodable(m)
    requires b < Layout(m) || Layout(m) < b
    ensures Parse(b).Err?
  {
    if |b| >= 2 {
      hide BatchBytes, WheelBytes, KeyboardBytes, TextBytes, CommandBytes, Utf8;
      hide ParseBatch, ParseKeyboard, ParseText, Parse;
      match m
      case PointerMessage(batch) => BatchLengthIsFixed(batch, b); BatchHeaderParses(batch); Dispatch(b);
      case WheelMessage(w) => WheelParses(w); Dispatch(b);
      case KeyboardMessage(k) => KeyboardLengthIsFixed(k, b); KeyboardHeaderParses(k); Dispatch(b);
      case TextMessage(t) => TextLengthIsFixed(t, b); TextHeaderParses(t); Dispatch(b);
      case CommandMessage(c) => CommandParses(c); Dispatch(b);
    }
  }
}
