/** What the decoder accepts are encodings: apart from the reserved bytes and the value of the repeat flag, every byte
    of an accepted packet is the one that encodes the message it is decoded to. */
module WireCanonical {
  import opened Bytes
  import opened Unicode
  import opened Protocol
  import WireTheorems

  lemma FieldBytes(b: seq<U8>, at: nat, n: nat)
    requires at + n <= |b|
    ensures b[at..at + n] == LeBytes(Field(b, at, n), n)
  {
    LeIsCanonical(b[at..at + n]);
  }

  /** Puts one field back in front of the rest. */
  lemma Before(b: seq<U8>, at: nat, n: nat, rest: seq<U8>)
    requires at + n <= |b| && b[at + n..] == rest
    ensures b[at..] == LeBytes(Field(b, at, n), n) + rest
  {
    FieldBytes(b, at, n);
    assert b[at..] == b[at..at + n] + b[at + n..];
  }

  lemma SampleIsEncoding(b: seq<U8>)
    requires |b| == SAMPLE_LEN && ParseSample(b, 0).Ok?
    ensures SampleBytes(ParseSample(b, 0).value) == b
  {
    hide LeBytes, Field;
    var s := ParseSample(b, 0).value;
    var r9 := LeBytes(s.time, 8) + [];
    var r8 := LeBytes(s.twist, 4) + r9;
    var r7 := LeBytes(s.tiltY, 4) + r8;
    var r6 := LeBytes(s.tiltX, 4) + r7;
    var r5 := LeBytes(s.pressure, 4) + r6;
    var r4 := LeBytes(s.y, 4) + r5;
    var r3 := LeBytes(s.x, 4) + r4;
    var r2 := LeBytes(s.sequence, 4) + r3;
    var r1 := LeBytes(s.pointerId, 4) + r2;
    var r0 := LeBytes(s.flags, 2) + r1;
    assert b[44..] == [];
    Before(b, 36, 8, []);
    Before(b, 32, 4, r9);
    Before(b, 28, 4, r8);
    Before(b, 24, 4, r7);
    Before(b, 20, 4, r6);
    Before(b, 16, 4, r5);
    Before(b, 12, 4, r4);
    Before(b, 8, 4, r3);
    Before(b, 4, 4, r2);
    Before(b, 2, 2, r1);
    assert b == [b[0], b[1]] + b[2..];
    assert LeBytes(s.time, 8) + [] == LeBytes(s.time, 8);
  }

  lemma {:induction false} SamplesAreEncodings(b: seq<U8>, i: nat, n: nat)
    requires i <= n && |b| == BATCH_HEADER + SAMPLE_LEN * n && ParseSamples(b, i, n).Ok?
    ensures SamplesBytes(ParseSamples(b, i, n).value) == b[BATCH_HEADER + SAMPLE_LEN * i..]
    decreases n - i
  {
    hide ParseSample, SampleBytes;
    if i < n {
      var at := BATCH_HEADER + SAMPLE_LEN * i;
      WireTheorems.SampleIsLocal(b, at);
      SampleIsEncoding(b[at..at + SAMPLE_LEN]);
      SamplesAreEncodings(b, i + 1, n);
      var r := ParseSamples(b, i, n).value;
      assert r[0] == ParseSample(b, at).value && r[1..] == ParseSamples(b, i + 1, n).value;
      assert b[at..] == b[at..at + SAMPLE_LEN] + b[at + SAMPLE_LEN..];
    }
  }

  lemma BatchIsEncoding(b: seq<U8>)
    requires ParseBatch(b).Ok?
    ensures BatchBytes(ParseBatch(b).value) == b && |ParseBatch(b).value.samples| <= MAX_SAMPLES
  {
    hide LeBytes, Field, ParseSamples, SamplesBytes;
    var batch := ParseBatch(b).value;
    SamplesAreEncodings(b, 0, Field16(b, 2));
    assert |batch.samples| == Field16(b, 2);
    var r2 := LeBytes(batch.sendTime, 8) + SamplesBytes(batch.samples);
    var r1 := LeBytes(batch.sequence, 4) + r2;
    Before(b, 8, 8, SamplesBytes(batch.samples));
    Before(b, 4, 4, r2);
    Before(b, 2, 2, r1);
    assert b == [b[0], b[1]] + b[2..];
  }

  lemma WheelIsEncoding(b: seq<U8>)
    requires |b| >= 2 && b[0] == VERSION && b[1] == 2 && ParseWheel(b).Ok?
    ensures WheelBytes(ParseWheel(b).value) == b
  {
    hide LeBytes, Field;
    var w := ParseWheel(b).value;
    var r6 := LeBytes(w.time, 8) + [];
    var r5 := LeBytes(w.deltaY, 4) + r6;
    var r4 := LeBytes(w.deltaX, 4) + r5;
    var r3 := LeBytes(w.y, 4) + r4;
    var r2 := LeBytes(w.x, 4) + r3;
    var r1 := LeBytes(w.sequence, 4) + r2;
    assert b[32..] == [];
    Before(b, 24, 8, []);
    Before(b, 20, 4, r6);
    Before(b, 16, 4, r5);
    Before(b, 12, 4, r4);
    Before(b, 8, 4, r3);
    Before(b, 4, 4, r2);
    Before(b, 2, 2, r1);
    assert b == [b[0], b[1]] + b[2..];
    assert LeBytes(w.time, 8) + [] == LeBytes(w.time, 8);
  }

  /** The reserved bytes cleared, and the repeat flag as an encoder writes it. */
  function Plain(b: seq<U8>): (p: seq<U8>)
    ensures |p| == |b|
  {
    if |b| >= KEYBOARD_HEADER && b[1] == 3 then b[6 := if b[6] == 0 then 0 else 1][7 := 0]
    else if |b| >= TEXT_HEADER && b[1] == 4 then b[2 := 0][3 := 0]
    else if |b| >= COMMAND_LEN && b[1] == 5 then b[3 := 0]
    else b
  }

  lemma SameField(b: seq<U8>, c: seq<U8>, at: nat, n: nat)
    requires |b| == |c| && at + n <= |b| && forall i :: at <= i < at + n ==> b[i] == c[i]
    ensures Field(b, at, n) == Field(c, at, n)
  {
    assert b[at..at + n] == c[at..at + n];
  }

  lemma KeyTextsAreEncodings(b: seq<U8>, codeLen: nat, keyLen: nat)
    requires ParseKeyTexts(b, codeLen, keyLen).Ok?
    ensures var (code, key) := ParseKeyTexts(b, codeLen, keyLen).value;
      && |Utf8(code)| == codeLen && |Utf8(key)| == keyLen && |b| == KEYBOARD_HEADER + codeLen + keyLen
      && b[KEYBOARD_HEADER..] == Utf8(code) + Utf8(key)
  {
    hide Utf8, FromUtf8;
    Utf8IsCanonical(b[KEYBOARD_HEADER..KEYBOARD_HEADER + codeLen]);
    Utf8IsCanonical(b[KEYBOARD_HEADER + codeLen..]);
  }

  lemma KeyboardIsEncoding(b: seq<U8>)
    requires |b| >= 2 && b[0] == VERSION && b[1] == 3 && ParseKeyboard(b).Ok?
    ensures KeyboardBytes(ParseKeyboard(b).value) == Plain(b)
  {
    hide LeBytes, Field, ParseKeyTexts, Utf8;
    var k, p := ParseKeyboard(b).value, Plain(b);
    KeyTextsAreEncodings(b, Field16(b, 20), Field16(b, 22));
    var body := Utf8(k.code) + Utf8(k.key);
    assert p[24..] == b[24..];
    SameField(b, p, 4, 2);
    SameField(b, p, 8, 4);
    SameField(b, p, 12, 8);
    SameField(b, p, 20, 2);
    SameField(b, p, 22, 2);
    var r4 := LeBytes(|Utf8(k.key)|, 2) + body;
    var r3 := LeBytes(|Utf8(k.code)|, 2) + r4;
    var r2 := LeBytes(k.time, 8) + r3;
    var r1 := LeBytes(k.sequence, 4) + r2;
    Before(p, 22, 2, body);
    Before(p, 20, 2, r4);
    Before(p, 12, 8, r3);
    Before(p, 8, 4, r2);
    assert p[6..] == [if k.repeat then 1 else 0, 0] + p[8..];
    Before(p, 4, 2, [if k.repeat then 1 else 0, 0] + r1);
    assert p == [p[0], p[1], p[2], p[3]] + p[4..];
  }

  lemma TextIsEncoding(b: seq<U8>)
    requires |b| >= 2 && b[0] == VERSION && b[1] == 4 && ParseText(b).Ok?
    ensures TextBytes(ParseText(b).value) == Plain(b)
  {
    hide LeBytes, Field, Utf8, FromUtf8;
    var t, p := ParseText(b).value, Plain(b);
    Utf8IsCanonical(b[TEXT_HEADER..]);
    assert p[20..] == b[20..];
    SameField(b, p, 4, 4);
    SameField(b, p, 8, 8);
    SameField(b, p, 16, 4);
    var r2 := LeBytes(|Utf8(t.text)|, 4) + Utf8(t.text);
    var r1 := LeBytes(t.time, 8) + r2;
    Before(p, 16, 4, Utf8(t.text));
    Before(p, 8, 8, r2);
    Before(p, 4, 4, r1);
    assert p == [p[0], p[1], p[2], p[3]] + p[4..];
  }

  lemma CommandIsEncoding(b: seq<U8>)
    requires |b| >= 2 && b[0] == VERSION && b[1] == 5 && ParseCommand(b).Ok?
    ensures CommandBytes(ParseCommand(b).value) == Plain(b)
  {
    hide LeBytes, Field;
    var c, p := ParseCommand(b).value, Plain(b);
    SameField(b, p, 4, 4);
    SameField(b, p, 8, 8);
    var r1 := LeBytes(c.time, 8) + [];
    assert p[16..] == [];
    Before(p, 8, 8, []);
    Before(p, 4, 4, r1);
    assert p == [p[0], p[1], p[2], p[3]] + p[4..];
    assert LeBytes(c.time, 8) + [] == LeBytes(c.time, 8);
  }

  /** Whatever packet the decoder accepts is, with reserved bytes cleared, the packet of its message. */
  lemma AcceptedIsEncoding(b: seq<U8>)
    requires Parse(b).Ok?
    ensures Layout(Parse(b).value) == Plain(b)
  {
    hide ParseBatch, ParseWheel, ParseKeyboard, ParseText, ParseCommand;
    hide BatchBytes, WheelBytes, KeyboardBytes, TextBytes, CommandBytes;
    if b[1] == 1 { BatchIsEncoding(b); }
    else if b[1] == 2 { WheelIsEncoding(b); }
    else if b[1] == 3 { KeyboardIsEncoding(b); }
    else if b[1] == 4 { TextIsEncoding(b); }
    else { CommandIsEncoding(b); }
  }

  /** And it keeps the limits: 512 samples, 64 bytes of code, at least one, and of key, 4096 bytes of text, at least
      one. */
  lemma AcceptedIsWithinLimits(b: seq<U8>)
    requires Parse(b).Ok?
    ensures match Parse(b).value
      case PointerMessage(batch) => |batch.samples| <= 512
      case KeyboardMessage(k) => 1 <= |Utf8(k.code)| <= 64 && |Utf8(k.key)| <= 64
      case TextMessage(t) => 1 <= |Utf8(t.text)| <= 4096
      case _ => true
  {
    hide Field, ParseSamples, Utf8, FromUtf8;
    if b[1] == 3 { KeyTextsAreEncodings(b, Field16(b, 20), Field16(b, 22)); }
    else if b[1] == 4 { Utf8IsCanonical(b[TEXT_HEADER..]); }
  }

  /** How a packet is refused before its kind is known. */
  lemma HeaderRefusals(b: seq<U8>)
    ensures |b| < 2 ==> Parse(b) == Err(Truncated(2, |b|))
    ensures |b| >= 2 && b[0] != 1 ==> Parse(b) == Err(InvalidVersion(b[0]))
    ensures |b| >= 2 && b[0] == 1 && !(1 <= b[1] <= 5) ==> Parse(b) == Err(InvalidMessageType(b[1]))
  {
  }

  /** How a pointer batch is refused, also when it is decoded by itself: the first reason that applies. */
  lemma BatchRefusals(b: seq<U8>)
    ensures var r := ParseBatch(b);
      if |b| < 16 then r == Err(Truncated(16, |b|))
      else if b[0] != 1 then r == Err(InvalidVersion(b[0]))
      else if b[1] != 1 then r == Err(InvalidMessageType(b[1]))
      else if Field16(b, 2) > 512 then r == Err(TooManySamples(Field16(b, 2)))
      else if |b| < 16 + 44 * Field16(b, 2) then r == Err(Truncated(16 + 44 * Field16(b, 2), |b|))
      else if |b| > 16 + 44 * Field16(b, 2) then r == Err(TrailingBytes(|b| - 16 - 44 * Field16(b, 2)))
      else r.Err? ==> r.error.InvalidDevice? || r.error.InvalidAction?
  {
    if |b| >= 16 && b[0] == 1 && b[1] == 1 && Field16(b, 2) <= 512 && |b| == 16 + 44 * Field16(b, 2) {
      SampleRefusals(b, 0, Field16(b, 2));
    }
    hide ParseSamples, Field;
  }

  lemma {:induction false} SampleRefusals(b: seq<U8>, i: nat, n: nat)
    requires i <= n && |b| == BATCH_HEADER + SAMPLE_LEN * n
    ensures ParseSamples(b, i, n).Err? ==>
      ParseSamples(b, i, n).error.InvalidDevice? || ParseSamples(b, i, n).error.InvalidAction?
    decreases n - i
  {
    hide Field;
    if i < n { SampleRefusals(b, i + 1, n); }
  }

  /** How the encoders refuse a message: they name the number of samples, or of bytes of text. */
  lemma EncodeRefusals(m: Message)
    ensures match m
      case PointerMessage(batch) => |batch.samples| > 512 <==> Encode(m) == Err(TooManySamples(|batch.samples|))
      case TextMessage(t) => |Utf8(t.text)| == 0 || |Utf8(t.text)| > 4096 <==> Encode(m) == Err(InvalidTextLength(|Utf8(t.text)|))
      case KeyboardMessage(k) =>
        (Encode(m) == Err(InvalidKeyField) <==>
          |Utf8(k.code)| == 0 || |Utf8(k.code)| > 64 || |Utf8(k.key)| > 64 || exists i :: 0 <= i < |Utf8(k.code)| && Utf8(k.code)[i] >= 0x80)
      case _ => Encode(m).Ok?
  {
    hide Layout, SanitizedForSending, Utf8;
  }
}
