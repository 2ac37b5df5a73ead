/** The TypeScript encoders, which write into an ArrayBuffer through a DataView, and exactly when
    their bytes are those of the Rust encoders. Every number is a binary64; what goes into a 32-bit
    field is rounded by the write, and strings are sequences of UTF-16 code units. */
module BrowserCodec {
  import opened Bytes
  import opened Rounding
  import opened Floats
  import opened Unicode
  import opened Protocol
  import opened WireTheorems
  import Twist

  /** Integer fields are any integers: the encoder reduces them with `& 0xffff` and `>>> 0`. */
  datatype JsSample = JsSample(
    device: Device, action: Action, flags: int, pointerId: int, sequence: int,
    x: F64, y: F64, pressure: F64, tiltX: F64, tiltY: F64, twist: F64, time: F64)
  datatype JsBatch = JsBatch(sequence: int, sendTime: F64, samples: seq<JsSample>)
  datatype JsWheel = JsWheel(modifiers: int, sequence: int, x: F64, y: F64, deltaX: F64, deltaY: F64, time: F64)
  datatype JsKeyboard = JsKeyboard(
    action: KeyAction, location: int, repeat: bool, modifiers: int, sequence: int, time: F64,
    code: seq<U16>, key: seq<U16>)

  /** A clamped number as it is written into a 32-bit field. */
  function ClampedSingle(x: F64, low: F64, high: F64): F32 { Single(JsClamp(FiniteOrZero64(x), low, high)) }

  /** `sanitizeSample` and the conversions of the writes. */
  function JsSanitized(s: JsSample): Sample {
    Sample(s.device, s.action, s.flags % 0x1_0000, s.pointerId % TWO32, s.sequence % TWO32,
           ClampedSingle(s.x, 0, ONE_64), ClampedSingle(s.y, 0, ONE_64), ClampedSingle(s.pressure, 0, ONE_64),
           ClampedSingle(s.tiltX, NEG_NINETY_64, NINETY_64), ClampedSingle(s.tiltY, NEG_NINETY_64, NINETY_64),
           Twist.JsWrapTwist(FiniteOrZero64(s.twist)), FiniteOrZero64(s.time))
  }

  function JsSanitizedBatch(b: JsBatch): Batch {
    Batch(b.sequence % TWO32, FiniteOrZero64(b.sendTime),
          seq(|b.samples|, i requires 0 <= i < |b.samples| => JsSanitized(b.samples[i])))
  }

  function JsSanitizedWheel(w: JsWheel): Wheel {
    Wheel(w.modifiers % 0x1_0000, w.sequence % TWO32,
          ClampedSingle(w.x, 0, ONE_64), ClampedSingle(w.y, 0, ONE_64),
          ClampedSingle(w.deltaX, NEG_TEN_THOUSAND_64, TEN_THOUSAND_64),
          ClampedSingle(w.deltaY, NEG_TEN_THOUSAND_64, TEN_THOUSAND_64), FiniteOrZero64(w.time))
  }

  /** 1 as a multiple of 2^-1074. */
  function One64(): (n: nat)
    ensures n > 0
  {
    Pow2(1074)
  }

  const TWO64: int := 0x1_0000_0000_0000_0000

  /** `BigInt(Math.max(0, Math.round(finiteOr(time, 0))))` as `setBigUint64` writes it. `Math.round` goes to the
      nearest integer, from halfway between two to the larger. */
  function Milliseconds(time: F64): U64 {
    var nearest := (2 * Value64(FiniteOrZero64(time)) + One64()) / (2 * One64());
    (if nearest < 0 then 0 else nearest) % TWO64
  }

  function TypedKeyboard(k: JsKeyboard): Keyboard {
    Keyboard(k.action, k.location % 0x100, k.repeat, k.modifiers % 0x1_0000, k.sequence % TWO32,
             Milliseconds(k.time), WellFormed(k.code), WellFormed(k.key))
  }

  function TypedText(sequence: int, time: F64, text: seq<U16>): TextInput {
    TextInput(sequence % TWO32, Milliseconds(time), WellFormed(text))
  }

  function TypedCommand(command: Command, sequence: int, time: F64): CommandInput {
    CommandInput(command, sequence % TWO32, Milliseconds(time))
  }

  /** Whole times of 64 bits are written as they are. */
  lemma WholeTimesStay(time: F64, n: U64)
    requires IsFinite64(time) && Value64(time) == n * One64()
    ensures Milliseconds(time) == n
  {
    hide One64, Value64;
    var u := One64();
    Associate(2, n, u);
    Associate(n, 2, u);
    DivMod(2 * (n * u) + u, 2 * u, n, u);
  }

  // ----- the writes -----

  /** Little-endian `setUint8/16/32`, `setFloat32/64`, `setBigUint64` and `Uint8Array.set`. What is
      still missing from the packet shrinks by the field. */
  method Put(buffer: array<U8>, offset: nat, field: seq<U8>, ghost packet: seq<U8>, ghost rest: seq<U8>)
    requires offset + |field| <= buffer.Length
    requires packet == buffer[..offset] + (field + rest)
    modifies buffer
    ensures packet == buffer[..offset + |field|] + rest
  {
    forall i | 0 <= i < |field| {
      buffer[offset + i] := field[i];
    }
    assert buffer[..offset] == old(buffer[..offset]);
    assert buffer[offset..offset + |field|] == field;
    assert buffer[..offset + |field|] == buffer[..offset] + field;
  }

  method PutSample(buffer: array<U8>, start: nat, sample: Sample, ghost packet: seq<U8>, ghost rest: seq<U8>)
    requires start + SAMPLE_LEN <= buffer.Length
    requires packet == buffer[..start] + (SampleBytes(sample) + rest)
    modifies buffer
    ensures packet == buffer[..start + SAMPLE_LEN] + rest
  {
    ghost var r11 := LeBytes(sample.time, 8) + rest;
    ghost var r10 := LeBytes(sample.twist, 4) + r11;
    ghost var r9 := LeBytes(sample.tiltY, 4) + r10;
    ghost var r8 := LeBytes(sample.tiltX, 4) + r9;
    ghost var r7 := LeBytes(sample.pressure, 4) + r8;
    ghost var r6 := LeBytes(sample.y, 4) + r7;
    ghost var r5 := LeBytes(sample.x, 4) + r6;
    ghost var r4 := LeBytes(sample.sequence, 4) + r5;
    ghost var r3 := LeBytes(sample.pointerId, 4) + r4;
    ghost var r2 := LeBytes(sample.flags, 2) + r3;
    ghost var r1 := [ActionCode(sample.action)] + r2;
    SampleFields(sample, rest);
    var offset := start;
    Put(buffer, offset, [DeviceCode(sample.device)], packet, r1);
    offset := offset + 1;
    Put(buffer, offset, [ActionCode(sample.action)], packet, r2);
    offset := offset + 1;
    Put(buffer, offset, LeBytes(sample.flags, 2), packet, r3);
    offset := offset + 2;
    Put(buffer, offset, LeBytes(sample.pointerId, 4), packet, r4);
    offset := offset + 4;
    Put(buffer, offset, LeBytes(sample.sequence, 4), packet, r5);
    offset := offset + 4;
    Put(buffer, offset, LeBytes(sample.x, 4), packet, r6);
    offset := offset + 4;
    Put(buffer, offset, LeBytes(sample.y, 4), packet, r7);
    offset := offset + 4;
    Put(buffer, offset, LeBytes(sample.pressure, 4), packet, r8);
    offset := offset + 4;
    Put(buffer, offset, LeBytes(sample.tiltX, 4), packet, r9);
    offset := offset + 4;
    Put(buffer, offset, LeBytes(sample.tiltY, 4), packet, r10);
    offset := offset + 4;
    Put(buffer, offset, LeBytes(sample.twist, 4), packet, r11);
    offset := offset + 4;
    Put(buffer, offset, LeBytes(sample.time, 8), packet, rest);
    offset := offset + 8;
  }

  lemma Shift(a: seq<U8>, b: seq<U8>, c: seq<U8>)
    ensures a + b + c == a + (b + c)
  {
  }

  /** A sample followed by more bytes, field by field. */
  lemma SampleFields(sample: Sample, rest: seq<U8>)
    ensures SampleBytes(sample) + rest ==
      [DeviceCode(sample.device)] + ([ActionCode(sample.action)] + (LeBytes(sample.flags, 2) +
      (LeBytes(sample.pointerId, 4) + (LeBytes(sample.sequence, 4) + (LeBytes(sample.x, 4) +
      (LeBytes(sample.y, 4) + (LeBytes(sample.pressure, 4) + (LeBytes(sample.tiltX, 4) +
      (LeBytes(sample.tiltY, 4) + (LeBytes(sample.twist, 4) + (LeBytes(sample.time, 8) + rest)))))))))))
  {
    var t0 := LeBytes(sample.time, 8);
    var t1 := LeBytes(sample.twist, 4) + t0;
    var t2 := LeBytes(sample.tiltY, 4) + t1;
    var t3 := LeBytes(sample.tiltX, 4) + t2;
    var t4 := LeBytes(sample.pressure, 4) + t3;
    var t5 := LeBytes(sample.y, 4) + t4;
    var t6 := LeBytes(sample.x, 4) + t5;
    var t7 := LeBytes(sample.sequence, 4) + t6;
    var t8 := LeBytes(sample.pointerId, 4) + t7;
    var t9 := LeBytes(sample.flags, 2) + t8;
    Shift(LeBytes(sample.twist, 4), t0, rest);
    Shift(LeBytes(sample.tiltY, 4), t1, rest);
    Shift(LeBytes(sample.tiltX, 4), t2, rest);
    Shift(LeBytes(sample.pressure, 4), t3, rest);
    Shift(LeBytes(sample.y, 4), t4, rest);
    Shift(LeBytes(sample.x, 4), t5, rest);
    Shift(LeBytes(sample.sequence, 4), t6, rest);
    Shift(LeBytes(sample.pointerId, 4), t7, rest);
    Shift(LeBytes(sample.flags, 2), t8, rest);
  }

  /** The first sixteen bytes of a pointer packet. */
  method PutBatchStart(view: array<U8>, count: nat, sequence: U32, sendTime: F64, ghost packet: seq<U8>, ghost rest: seq<U8>)
    requires view.Length >= BATCH_HEADER
    requires packet == [VERSION, 1] + (LeBytes(count, 2) + (LeBytes(sequence, 4) + (LeBytes(sendTime, 8) + rest)))
    modifies view
    ensures packet == view[..BATCH_HEADER] + rest
  {
    hide LeBytes;
    ghost var r4 := LeBytes(sendTime, 8) + rest;
    ghost var r3 := LeBytes(sequence, 4) + r4;
    ghost var r2 := LeBytes(count, 2) + r3;
    var offset := 0;
    Put(view, offset, [VERSION], packet, [1] + r2);
    offset := offset + 1;
    Put(view, offset, [1], packet, r2);
    offset := offset + 1;
    Put(view, offset, LeBytes(count, 2), packet, r3);
    offset := offset + 2;
    Put(view, offset, LeBytes(sequence, 4), packet, r4);
    offset := offset + 4;
    Put(view, offset, LeBytes(sendTime, 8), packet, rest);
  }

  method EncodePointerBatch(batch: JsBatch) returns (buffer: Option<array<U8>>)
    ensures buffer.None? <==> |batch.samples| > MAX_SAMPLES
    ensures buffer.Some? ==> fresh(buffer.value) && buffer.value[..] == BatchBytes(JsSanitizedBatch(batch))
  {
    hide SampleBytes, JsSanitized, LeBytes;
    if |batch.samples| > MAX_SAMPLES {
      return None;
    }
    ghost var samples := JsSanitizedBatch(batch).samples;
    ghost var packet := BatchBytes(JsSanitizedBatch(batch));
    var view := new U8[BATCH_HEADER + |batch.samples| * SAMPLE_LEN];
    PutBatchStart(view, |batch.samples|, batch.sequence % TWO32, FiniteOrZero64(batch.sendTime), packet, SamplesBytes(samples));
    var offset := BATCH_HEADER;
    assert samples[0..] == samples;
    for i := 0 to |batch.samples|
      invariant offset == BATCH_HEADER + SAMPLE_LEN * i
      invariant packet == view[..offset] + SamplesBytes(samples[i..])
    {
      var sample := JsSanitized(batch.samples[i]);
      assert samples[i..][0] == sample && samples[i..][1..] == samples[i + 1..];
      PutSample(view, offset, sample, packet, SamplesBytes(samples[i + 1..]));
      offset := offset + SAMPLE_LEN;
    }
    assert samples[|batch.samples|..] == [];
    assert view[..] == view[..offset];
    buffer := Some(view);
  }

  method EncodeWheelInput(input: JsWheel) returns (buffer: array<U8>)
    ensures fresh(buffer) && buffer[..] == WheelBytes(JsSanitizedWheel(input))
  {
    hide JsSanitizedWheel;
    var sanitized := JsSanitizedWheel(input);
    ghost var packet := WheelBytes(sanitized);
    ghost var r8 := LeBytes(sanitized.time, 8) + [];
    ghost var r7 := LeBytes(sanitized.deltaY, 4) + r8;
    ghost var r6 := LeBytes(sanitized.deltaX, 4) + r7;
    ghost var r5 := LeBytes(sanitized.y, 4) + r6;
    ghost var r4 := LeBytes(sanitized.x, 4) + r5;
    ghost var r3 := LeBytes(sanitized.sequence, 4) + r4;
    ghost var r2 := LeBytes(sanitized.modifiers, 2) + r3;
    ghost var r1 := [2] + r2;
    var view := new U8[32];
    Put(view, 0, [VERSION], packet, r1);
    Put(view, 1, [2], packet, r2);
    Put(view, 2, LeBytes(sanitized.modifiers, 2), packet, r3);
    Put(view, 4, LeBytes(sanitized.sequence, 4), packet, r4);
    Put(view, 8, LeBytes(sanitized.x, 4), packet, r5);
    Put(view, 12, LeBytes(sanitized.y, 4), packet, r6);
    Put(view, 16, LeBytes(sanitized.deltaX, 4), packet, r7);
    Put(view, 20, LeBytes(sanitized.deltaY, 4), packet, r8);
    Put(view, 24, LeBytes(sanitized.time, 8), packet, []);
    assert view[..] == view[..32];
    buffer := view;
  }

  /** The first eight bytes of a keyboard packet. */
  method PutKeyboardStart(view: array<U8>, input: Keyboard, ghost packet: seq<U8>, ghost rest: seq<U8>)
    requires view.Length >= 8
    requires packet == [VERSION, 3, KeyActionCode(input.action), input.location] +
      (LeBytes(input.modifiers, 2) + ([if input.repeat then 1 else 0, 0] + rest))
    modifies view
    ensures packet == view[..8] + rest
  {
    hide LeBytes;
    ghost var r5 := [if input.repeat then 1 else 0] + ([0] + rest);
    ghost var r4 := LeBytes(input.modifiers, 2) + r5;
    ghost var r3 := [input.location] + r4;
    ghost var r2 := [KeyActionCode(input.action)] + r3;
    Put(view, 0, [VERSION], packet, [3] + r2);
    Put(view, 1, [3], packet, r2);
    Put(view, 2, [KeyActionCode(input.action)], packet, r3);
    Put(view, 3, [input.location], packet, r4);
    Put(view, 4, LeBytes(input.modifiers, 2), packet, r5);
    Put(view, 6, [if input.repeat then 1 else 0], packet, [0] + rest);
    Put(view, 7, [0], packet, rest);
  }

  method EncodeKeyboardInput(input: JsKeyboard) returns (buffer: Option<array<U8>>)
    ensures buffer.None? <==> !Encodable(KeyboardMessage(TypedKeyboard(input)))
    ensures buffer.Some? ==> fresh(buffer.value) && buffer.value[..] == KeyboardBytes(TypedKeyboard(input))
  {
    hide Utf8, LeBytes, Layout, Milliseconds, WellFormed;
    var typed := TypedKeyboard(input);
    var code := Utf8(typed.code);
    var key := Utf8(typed.key);
    if |code| == 0 || |code| > 64 || |key| > 64 || !IsAscii(code) {
      return None;
    }
    ghost var packet := KeyboardBytes(typed);
    ghost var r4 := LeBytes(|key|, 2) + (code + key);
    ghost var r3 := LeBytes(|code|, 2) + r4;
    ghost var r2 := LeBytes(typed.time, 8) + r3;
    ghost var r1 := LeBytes(typed.sequence, 4) + r2;
    var view := new U8[24 + |code| + |key|];
    PutKeyboardStart(view, typed, packet, r1);
    Put(view, 8, LeBytes(typed.sequence, 4), packet, r2);
    Put(view, 12, LeBytes(typed.time, 8), packet, r3);
    Put(view, 20, LeBytes(|code|, 2), packet, r4);
    Put(view, 22, LeBytes(|key|, 2), packet, code + key);
    Put(view, 24, code, packet, key);
    assert key == key + [];
    Put(view, 24 + |code|, key, packet, []);
    assert view[..] == view[..24 + |code| + |key|];
    buffer := Some(view);
  }

  method EncodeTextInput(sequence: int, time: F64, text: seq<U16>) returns (buffer: Option<array<U8>>)
    ensures buffer.None? <==> !Encodable(TextMessage(TypedText(sequence, time, text)))
    ensures buffer.Some? ==> fresh(buffer.value) && buffer.value[..] == TextBytes(TypedText(sequence, time, text))
  {
    hide Utf8, Milliseconds, WellFormed;
    var typed := TypedText(sequence, time, text);
    var encoded := Utf8(typed.text);
    if |encoded| == 0 || |encoded| > 4096 {
      return None;
    }
    ghost var packet := TextBytes(typed);
    ghost var r6 := encoded + [];
    ghost var r5 := LeBytes(|encoded|, 4) + r6;
    ghost var r4 := LeBytes(typed.time, 8) + r5;
    ghost var r3 := LeBytes(typed.sequence, 4) + r4;
    ghost var r2 := LeBytes(0, 2) + r3;
    ghost var r1 := [4] + r2;
    var view := new U8[20 + |encoded|];
    Put(view, 0, [VERSION], packet, r1);
    Put(view, 1, [4], packet, r2);
    Put(view, 2, LeBytes(0, 2), packet, r3);
    Put(view, 4, LeBytes(typed.sequence, 4), packet, r4);
    Put(view, 8, LeBytes(typed.time, 8), packet, r5);
    Put(view, 16, LeBytes(|encoded|, 4), packet, r6);
    Put(view, 20, encoded, packet, []);
    assert view[..] == view[..20 + |encoded|];
    buffer := Some(view);
  }

  method EncodeCommandInput(command: Command, sequence: int, time: F64) returns (buffer: array<U8>)
    ensures fresh(buffer) && buffer[..] == CommandBytes(TypedCommand(command, sequence, time))
  {
    hide Milliseconds;
    var typed := TypedCommand(command, sequence, time);
    ghost var packet := CommandBytes(typed);
    ghost var r5 := LeBytes(typed.time, 8) + [];
    ghost var r4 := LeBytes(typed.sequence, 4) + r5;
    ghost var r3 := [0] + r4;
    ghost var r2 := [CommandCode(typed.command)] + r3;
    ghost var r1 := [5] + r2;
    var view := new U8[16];
    Put(view, 0, [VERSION], packet, r1);
    Put(view, 1, [5], packet, r2);
    Put(view, 2, [CommandCode(typed.command)], packet, r3);
    Put(view, 3, [0], packet, r4);
    Put(view, 4, LeBytes(typed.sequence, 4), packet, r5);
    Put(view, 8, LeBytes(typed.time, 8), packet, []);
    assert view[..] == view[..16];
    buffer := view;
  }

  // ----- agreement with Rust -----

  /** The same number in both programs, or no number in either. */
  predicate SameNumber(d: F64, f: F32) { Same(d, f) || (!IsFinite64(d) && !IsFinite32(f)) }

  predicate SameSample(s: JsSample, r: Sample) {
    && s.device == r.device && s.action == r.action && s.flags % 0x1_0000 == r.flags
    && s.pointerId % TWO32 == r.pointerId && s.sequence % TWO32 == r.sequence && s.time == r.time
    && SameNumber(s.x, r.x) && SameNumber(s.y, r.y) && SameNumber(s.pressure, r.pressure)
    && SameNumber(s.tiltX, r.tiltX) && SameNumber(s.tiltY, r.tiltY) && SameNumber(s.twist, r.twist)
  }

  predicate SameBatch(b: JsBatch, r: Batch) {
    && b.sequence % TWO32 == r.sequence && b.sendTime == r.sendTime && |b.samples| == |r.samples|
    && forall i :: 0 <= i < |r.samples| ==> SameSample(b.samples[i], r.samples[i])
  }

  predicate SameWheel(w: JsWheel, r: Wheel) {
    && w.modifiers % 0x1_0000 == r.modifiers && w.sequence % TWO32 == r.sequence && w.time == r.time
    && SameNumber(w.x, r.x) && SameNumber(w.y, r.y)
    && SameNumber(w.deltaX, r.deltaX) && SameNumber(w.deltaY, r.deltaY)
  }

  predicate SampleAgrees(r: Sample) {
    && r.x != NEG_ZERO && r.y != NEG_ZERO && r.pressure != NEG_ZERO
    && !Twist.Differs(FiniteOrZero(r.twist))
  }

  lemma SameFinite(d: F64, f: F32)
    requires SameNumber(d, f)
    ensures Same(FiniteOrZero64(d), FiniteOrZero(f)) && (FiniteOrZero(f) == NEG_ZERO <==> f == NEG_ZERO)
  {
    hide Magnitude, Pow2;
    ConstantsAreSame();
  }

  lemma FromZeroAgrees(d: F64, f: F32)
    requires SameNumber(d, f)
    ensures ClampedSingle(d, 0, ONE_64) == Clamp(FiniteOrZero(f), ZERO, ONE) <==> f != NEG_ZERO
  {
    hide Same, Single, JsClamp, Clamp, FiniteOrZero, FiniteOrZero64, SameNumber;
    SameFinite(d, f);
    ConstantsAreSame();
    JsClampAgrees(FiniteOrZero64(d), FiniteOrZero(f), 0, ZERO, ONE_64, ONE);
  }

  lemma TiltAgrees(d: F64, f: F32)
    requires SameNumber(d, f)
    ensures ClampedSingle(d, NEG_NINETY_64, NINETY_64) == Clamp(FiniteOrZero(f), NEG_NINETY, NINETY)
  {
    hide Same, Single, JsClamp, Clamp, FiniteOrZero, FiniteOrZero64, SameNumber;
    SameFinite(d, f);
    ConstantsAreSame();
    JsClampAgrees(FiniteOrZero64(d), FiniteOrZero(f), NEG_NINETY_64, NEG_NINETY, NINETY_64, NINETY);
  }

  lemma DeltaAgrees(d: F64, f: F32)
    requires SameNumber(d, f)
    ensures ClampedSingle(d, NEG_TEN_THOUSAND_64, TEN_THOUSAND_64) == Clamp(FiniteOrZero(f), NEG_TEN_THOUSAND, TEN_THOUSAND)
  {
    hide Same, Single, JsClamp, Clamp, FiniteOrZero, FiniteOrZero64, SameNumber;
    SameFinite(d, f);
    ConstantsAreSame();
    JsClampAgrees(FiniteOrZero64(d), FiniteOrZero(f), NEG_TEN_THOUSAND_64, NEG_TEN_THOUSAND, TEN_THOUSAND_64, TEN_THOUSAND);
  }

  lemma SamplesAgree(s: JsSample, r: Sample)
    requires SameSample(s, r)
    ensures JsSanitized(s) == SanitizedSample(r) <==> SampleAgrees(r)
  {
    hide ClampedSingle, Clamp, FiniteOrZero, SameNumber, Same, Twist.JsWrapTwist, Twist.WrapTwist, Twist.Differs;
    FromZeroAgrees(s.x, r.x);
    FromZeroAgrees(s.y, r.y);
    FromZeroAgrees(s.pressure, r.pressure);
    TiltAgrees(s.tiltX, r.tiltX);
    TiltAgrees(s.tiltY, r.tiltY);
    SameFinite(s.twist, r.twist);
    Twist.WrapsAgreeIff(FiniteOrZero64(s.twist), FiniteOrZero(r.twist));
  }

  /** Given the same numbers, the two programs write the same bytes for a pointer batch if and only if the
      send time is finite, no position or pressure is -0, and no twist is one they wrap differently. */
  lemma PointerBytesAgree(b: JsBatch, r: Batch)
    requires SameBatch(b, r) && |r.samples| <= MAX_SAMPLES
    ensures BatchBytes(JsSanitizedBatch(b)) == Layout(SanitizedForSending(PointerMessage(r)))
      <==> IsFinite64(r.sendTime) && forall s :: s in r.samples ==> SampleAgrees(s)
  {
    hide BatchBytes, JsSanitized, SanitizedSample, SampleAgrees, SameSample;
    var left, right := JsSanitizedBatch(b), SanitizedForSending(PointerMessage(r)).batch;
    LayoutIsInjective(PointerMessage(left), PointerMessage(right));
    forall i | 0 <= i < |r.samples|
      ensures left.samples[i] == right.samples[i] <==> SampleAgrees(r.samples[i])
    {
      SamplesAgree(b.samples[i], r.samples[i]);
    }
    if left.samples == right.samples {
      forall s | s in r.samples ensures SampleAgrees(s) {
        var i :| 0 <= i < |r.samples| && r.samples[i] == s;
        assert left.samples[i] == right.samples[i];
      }
    }
    if forall s :: s in r.samples ==> SampleAgrees(s) {
      forall i | 0 <= i < |r.samples| ensures left.samples[i] == right.samples[i] {
        assert r.samples[i] in r.samples;
      }
    }
    assert IsFinite64(r.sendTime) <==> FiniteOrZero64(r.sendTime) == r.sendTime;
  }

  /** For a wheel message: if and only if neither coordinate is -0. */
  lemma WheelBytesAgree(w: JsWheel, r: Wheel)
    requires SameWheel(w, r)
    ensures WheelBytes(JsSanitizedWheel(w)) == Layout(SanitizedForSending(WheelMessage(r)))
      <==> r.x != NEG_ZERO && r.y != NEG_ZERO
  {
    LayoutIsInjective(WheelMessage(JsSanitizedWheel(w)), WheelMessage(SanitizedWheel(r)));
    hide WheelBytes, ClampedSingle, Clamp, FiniteOrZero, SameNumber;
    FromZeroAgrees(w.x, r.x);
    FromZeroAgrees(w.y, r.y);
    DeltaAgrees(w.deltaX, r.deltaX);
    DeltaAgrees(w.deltaY, r.deltaY);
  }
}
