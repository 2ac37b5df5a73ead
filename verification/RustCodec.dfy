/** The Rust codec as it runs: encoders that push onto a byte vector and decoders that move a
    cursor. Each is proved to give exactly the answer of `Protocol`, errors included. */
module RustCodec {
  import opened Bytes
  import opened Floats
  import opened Unicode
  import opened Protocol

  // ----- encoding -----

  /** One push of a field: what is still to be written shrinks by that field. */
  lemma Push(target: seq<U8>, done: seq<U8>, field: seq<U8>, rest: seq<U8>)
    requires target == done + (field + rest)
    ensures target == (done + field) + rest
  {
  }

  method PushSample(start: seq<U8>, s: Sample) returns (bytes: seq<U8>)
    ensures bytes == start + SampleBytes(s)
  {
    ghost var target := start + SampleBytes(s);
    ghost var r9 := LeBytes(s.time, 8);
    ghost var r8 := LeBytes(s.twist, 4) + r9;
    ghost var r7 := LeBytes(s.tiltY, 4) + r8;
    ghost var r6 := LeBytes(s.tiltX, 4) + r7;
    ghost var r5 := LeBytes(s.pressure, 4) + r6;
    ghost var r4 := LeBytes(s.y, 4) + r5;
    ghost var r3 := LeBytes(s.x, 4) + r4;
    ghost var r2 := LeBytes(s.sequence, 4) + r3;
    ghost var r1 := LeBytes(s.pointerId, 4) + r2;
    ghost var r0 := LeBytes(s.flags, 2) + r1;
    bytes := start + [DeviceCode(s.device)];
    bytes := bytes + [ActionCode(s.action)];
    assert target == bytes + r0;
    Push(target, bytes, LeBytes(s.flags, 2), r1);
    bytes := bytes + LeBytes(s.flags, 2);
    Push(target, bytes, LeBytes(s.pointerId, 4), r2);
    bytes := bytes + LeBytes(s.pointerId, 4);
    Push(target, bytes, LeBytes(s.sequence, 4), r3);
    bytes := bytes + LeBytes(s.sequence, 4);
    Push(target, bytes, LeBytes(s.x, 4), r4);
    bytes := bytes + LeBytes(s.x, 4);
    Push(target, bytes, LeBytes(s.y, 4), r5);
    bytes := bytes + LeBytes(s.y, 4);
    Push(target, bytes, LeBytes(s.pressure, 4), r6);
    bytes := bytes + LeBytes(s.pressure, 4);
    Push(target, bytes, LeBytes(s.tiltX, 4), r7);
    bytes := bytes + LeBytes(s.tiltX, 4);
    Push(target, bytes, LeBytes(s.tiltY, 4), r8);
    bytes := bytes + LeBytes(s.tiltY, 4);
    Push(target, bytes, LeBytes(s.twist, 4), r9);
    bytes := bytes + LeBytes(s.twist, 4);
    bytes := bytes + LeBytes(s.time, 8);
  }

  method EncodeBatch(batch: Batch) returns (r: Result<seq<U8>, Error>)
    ensures r == Encode(PointerMessage(batch))
  {
    hide SampleBytes, SanitizedSample, LeBytes;
    if |batch.samples| > MAX_SAMPLES {
      return Err(TooManySamples(|batch.samples|));
    }
    ghost var sanitized := SanitizedSamples(batch.samples);
    ghost var target := BatchBytes(batch.(samples := sanitized));
    ghost var body := SamplesBytes(sanitized);
    ghost var r1 := LeBytes(batch.sendTime, 8) + body;
    ghost var r0 := LeBytes(batch.sequence, 4) + r1;
    var bytes: seq<U8> := [VERSION];
    bytes := bytes + [1];
    Push(target, bytes, LeBytes(|batch.samples|, 2), r0);
    bytes := bytes + LeBytes(|batch.samples|, 2);
    Push(target, bytes, LeBytes(batch.sequence, 4), r1);
    bytes := bytes + LeBytes(batch.sequence, 4);
    Push(target, bytes, LeBytes(batch.sendTime, 8), body);
    bytes := bytes + LeBytes(batch.sendTime, 8);
    assert sanitized[0..] == sanitized;
    for i := 0 to |batch.samples|
      invariant target == bytes + SamplesBytes(sanitized[i..])
    {
      var sample := SanitizedSample(batch.samples[i]);
      assert sanitized[i..][0] == sample && sanitized[i..][1..] == sanitized[i + 1..];
      Push(target, bytes, SampleBytes(sample), SamplesBytes(sanitized[i + 1..]));
      bytes := PushSample(bytes, sample);
    }
    assert bytes == target by { assert sanitized[|sanitized|..] == []; }
    r := Ok(bytes);
  }

  method EncodeKeyboard(k: Keyboard) returns (r: Result<seq<U8>, Error>)
    ensures r == Encode(KeyboardMessage(k))
  {
    var code := Utf8(k.code);
    var key := Utf8(k.key);
    if |code| == 0 || |code| > MAX_KEY_FIELD || |key| > MAX_KEY_FIELD || !IsAscii(code) {
      return Err(InvalidKeyField);
    }
    ghost var target := KeyboardBytes(k);
    ghost var r4 := LeBytes(|key|, 2) + (code + key);
    ghost var r3 := LeBytes(|code|, 2) + r4;
    ghost var r2 := LeBytes(k.time, 8) + r3;
    ghost var r1 := LeBytes(k.sequence, 4) + r2;
    ghost var r0 := [if k.repeat then 1 else 0, 0] + r1;
    var bytes: seq<U8> := [VERSION, 3, KeyActionCode(k.action), k.location];
    Push(target, bytes, LeBytes(k.modifiers, 2), r0);
    bytes := bytes + LeBytes(k.modifiers, 2);
    Push(target, bytes, [if k.repeat then 1 else 0, 0], r1);
    bytes := bytes + [if k.repeat then 1 else 0, 0];
    Push(target, bytes, LeBytes(k.sequence, 4), r2);
    bytes := bytes + LeBytes(k.sequence, 4);
    Push(target, bytes, LeBytes(k.time, 8), r3);
    bytes := bytes + LeBytes(k.time, 8);
    Push(target, bytes, LeBytes(|code|, 2), r4);
    bytes := bytes + LeBytes(|code|, 2);
    Push(target, bytes, LeBytes(|key|, 2), code + key);
    bytes := bytes + LeBytes(|key|, 2);
    Push(target, bytes, code, key);
    bytes := bytes + code;
    bytes := bytes + key;
    r := Ok(bytes);
  }

  method EncodeWheel(w: Wheel) returns (bytes: seq<U8>)
    ensures bytes == WheelBytes(SanitizedWheel(w))
  {
    var v := SanitizedWheel(w);
    ghost var target := WheelBytes(v);
    ghost var r5 := LeBytes(v.time, 8);
    ghost var r4 := LeBytes(v.deltaY, 4) + r5;
    ghost var r3 := LeBytes(v.deltaX, 4) + r4;
    ghost var r2 := LeBytes(v.y, 4) + r3;
    ghost var r1 := LeBytes(v.x, 4) + r2;
    ghost var r0 := LeBytes(v.sequence, 4) + r1;
    bytes := [VERSION, 2];
    Push(target, bytes, LeBytes(v.modifiers, 2), r0);
    bytes := bytes + LeBytes(v.modifiers, 2);
    Push(target, bytes, LeBytes(v.sequence, 4), r1);
    bytes := bytes + LeBytes(v.sequence, 4);
    Push(target, bytes, LeBytes(v.x, 4), r2);
    bytes := bytes + LeBytes(v.x, 4);
    Push(target, bytes, LeBytes(v.y, 4), r3);
    bytes := bytes + LeBytes(v.y, 4);
    Push(target, bytes, LeBytes(v.deltaX, 4), r4);
    bytes := bytes + LeBytes(v.deltaX, 4);
    Push(target, bytes, LeBytes(v.deltaY, 4), r5);
    bytes := bytes + LeBytes(v.deltaY, 4);
    bytes := bytes + LeBytes(v.time, 8);
  }

  method EncodeText(t: TextInput) returns (r: Result<seq<U8>, Error>)
    ensures r == Encode(TextMessage(t))
  {
    var text := Utf8(t.text);
    if text == [] || |text| > MAX_TEXT {
      return Err(InvalidTextLength(|text|));
    }
    ghost var target := TextBytes(t);
    ghost var r1 := LeBytes(|text|, 4) + text;
    ghost var r0 := LeBytes(t.time, 8) + r1;
    var bytes: seq<U8> := [VERSION, 4, 0, 0];
    Push(target, bytes, LeBytes(t.sequence, 4), r0);
    bytes := bytes + LeBytes(t.sequence, 4);
    Push(target, bytes, LeBytes(t.time, 8), r1);
    bytes := bytes + LeBytes(t.time, 8);
    Push(target, bytes, LeBytes(|text|, 4), text);
    bytes := bytes + LeBytes(|text|, 4);
    bytes := bytes + text;
    r := Ok(bytes);
  }

  method EncodeCommand(c: CommandInput) returns (bytes: seq<U8>)
    ensures bytes == CommandBytes(c)
  {
    bytes := [VERSION, 5, CommandCode(c.command), 0];
    Push(CommandBytes(c), bytes, LeBytes(c.sequence, 4), LeBytes(c.time, 8));
    bytes := bytes + LeBytes(c.sequence, 4);
    bytes := bytes + LeBytes(c.time, 8);
  }

  // ----- decoding -----

  class Cursor {
    const bytes: seq<U8>
    var position: nat

    constructor (bytes: seq<U8>, position: nat)
      ensures this.bytes == bytes && this.position == position
    {
      this.bytes := bytes;
      this.position := position;
    }

    method TakeSlice(count: nat) returns (r: Result<seq<U8>, Error>)
      modifies this
      ensures old(position) + count <= |bytes| ==>
        r == Ok(bytes[old(position)..old(position) + count]) && position == old(position) + count
      ensures old(position) + count > |bytes| ==>
        r == Err(Truncated(old(position) + count, |bytes|)) && position == old(position)
    {
      var end := position + count;
      if end > |bytes| {
        return Err(Truncated(end, |bytes|));
      }
      r := Ok(bytes[position..end]);
      position := end;
    }

    // The fixed-width reads. Every decoder checks the packet's length before it uses them, so the
    // cursor's own error cannot occur there: the precondition is met at each call.

    method TakeU8() returns (r: U8)
      requires position + 1 <= |bytes|
      modifies this
      ensures r == bytes[old(position)] && position == old(position) + 1
    {
      var slice := TakeSlice(1);
      r := slice.value[0];
    }

    method TakeU16() returns (r: U16)
      requires position + 2 <= |bytes|
      modifies this
      ensures r == Field16(bytes, old(position)) && position == old(position) + 2
    {
      var slice := TakeSlice(2);
      Widths();
      r := LeValue(slice.value);
    }

    /** Also `f32`: the bits. */
    method TakeU32() returns (r: U32)
      requires position + 4 <= |bytes|
      modifies this
      ensures r == Field32(bytes, old(position)) && position == old(position) + 4
    {
      var slice := TakeSlice(4);
      Widths();
      r := LeValue(slice.value);
    }

    /** Also `f64`: the bits. */
    method TakeU64() returns (r: U64)
      requires position + 8 <= |bytes|
      modifies this
      ensures r == Field64(bytes, old(position)) && position == old(position) + 8
    {
      var slice := TakeSlice(8);
      Widths();
      r := LeValue(slice.value);
    }
  }

  method DecodeSample(cursor: Cursor) returns (r: Result<Sample, Error>)
    requires cursor.position + SAMPLE_LEN <= |cursor.bytes|
    modifies cursor
    ensures var raw := ParseSample(cursor.bytes, old(cursor.position));
      r == if raw.Ok? then Ok(SanitizedSample(raw.value)) else raw
    ensures r.Ok? ==> cursor.position == old(cursor.position) + SAMPLE_LEN
  {
    hide SanitizedSample, LeValue, Field;
    var deviceCode := cursor.TakeU8();
    var device :- DeviceFrom(deviceCode);
    var actionCode := cursor.TakeU8();
    var action :- ActionFrom(actionCode);
    var flags := cursor.TakeU16();
    var pointerId := cursor.TakeU32();
    var sequence := cursor.TakeU32();
    var x := cursor.TakeU32();
    var y := cursor.TakeU32();
    var pressure := cursor.TakeU32();
    var tiltX := cursor.TakeU32();
    var tiltY := cursor.TakeU32();
    var twist := cursor.TakeU32();
    var time := cursor.TakeU64();
    r := Ok(SanitizedSample(
      Sample(device, action, flags, pointerId, sequence, x, y, pressure, tiltX, tiltY, twist, time)));
  }

  /** What parsing from sample i on gives, put behind the samples already read. */
  ghost function Resume(read: seq<Sample>, rest: Result<seq<Sample>, Error>): Result<seq<Sample>, Error> {
    if rest.Ok? then Ok(read + rest.value) else rest
  }

  lemma ResumeStep(read: seq<Sample>, b: seq<U8>, i: nat, n: nat)
    requires i < n && |b| == BATCH_HEADER + SAMPLE_LEN * n
    ensures var raw := ParseSample(b, BATCH_HEADER + SAMPLE_LEN * i);
      Resume(read, ParseSamples(b, i, n)) ==
      if raw.Ok? then Resume(read + [raw.value], ParseSamples(b, i + 1, n)) else Err(raw.error)
  {
    hide ParseSample;
    var raw, rest := ParseSample(b, BATCH_HEADER + SAMPLE_LEN * i), ParseSamples(b, i + 1, n);
    if raw.Ok? && rest.Ok? {
      assert read + ([raw.value] + rest.value) == (read + [raw.value]) + rest.value;
    }
  }

  lemma NothingLeft(read: seq<Sample>, b: seq<U8>, n: nat)
    requires |b| == BATCH_HEADER + SAMPLE_LEN * n
    ensures Resume(read, ParseSamples(b, n, n)) == Ok(read)
  {
    assert read + [] == read;
  }

  method DecodeSamples(cursor: Cursor, count: nat) returns (r: Result<seq<Sample>, Error>)
    requires cursor.position == BATCH_HEADER && |cursor.bytes| == BATCH_HEADER + SAMPLE_LEN * count
    modifies cursor
    ensures var raw := ParseSamples(cursor.bytes, 0, count);
      r == if raw.Ok? then Ok(SanitizedSamples(raw.value)) else raw
  {
    hide ParseSample, SanitizedSample, ParseSamples;
    ghost var all := ParseSamples(cursor.bytes, 0, count);
    var samples: seq<Sample> := [];
    ghost var read: seq<Sample> := [];
    assert all.Ok? ==> read + all.value == all.value;
    for i := 0 to count
      invariant cursor.position == BATCH_HEADER + SAMPLE_LEN * i
      invariant samples == SanitizedSamples(read)
      invariant all == Resume(read, ParseSamples(cursor.bytes, i, count))
    {
      ResumeStep(read, cursor.bytes, i, count);
      ghost var raw := ParseSample(cursor.bytes, BATCH_HEADER + SAMPLE_LEN * i);
      var sample :- DecodeSample(cursor);
      read := read + [raw.value];
      samples := samples + [sample];
    }
    NothingLeft(read, cursor.bytes, count);
    r := Ok(samples);
  }

  method DecodeBatch(bytes: seq<U8>) returns (r: Result<Batch, Error>)
    ensures var raw := ParseBatch(bytes);
      r == if raw.Ok?
           then Ok(Batch(raw.value.sequence, FiniteOrZero64(raw.value.sendTime), SanitizedSamples(raw.value.samples)))
           else raw
  {
    hide ParseSamples, SanitizedSamples, LeValue, Field;
    if |bytes| < BATCH_HEADER {
      return Err(Truncated(BATCH_HEADER, |bytes|));
    }
    var cursor := new Cursor(bytes, 0);
    var version := cursor.TakeU8();
    if version != VERSION {
      return Err(InvalidVersion(version));
    }
    var messageType := cursor.TakeU8();
    if messageType != 1 {
      return Err(InvalidMessageType(messageType));
    }
    var count := cursor.TakeU16();
    if count > MAX_SAMPLES {
      return Err(TooManySamples(count));
    }
    var expected := BATCH_HEADER + count * SAMPLE_LEN;
    if |bytes| != expected {
      return Err(if |bytes| < expected then Truncated(expected, |bytes|) else TrailingBytes(|bytes| - expected));
    }
    var sequence := cursor.TakeU32();
    var sendTime := cursor.TakeU64();
    var samples :- DecodeSamples(cursor, count);
    r := Ok(Batch(sequence, FiniteOrZero64(sendTime), samples));
  }

  /** What `decode_keyboard` does once it has read the two lengths. */
  method DecodeKeyTexts(cursor: Cursor, codeLen: nat, keyLen: nat) returns (r: Result<(Text, Text), Error>)
    requires cursor.position == KEYBOARD_HEADER
    modifies cursor
    ensures r == ParseKeyTexts(cursor.bytes, codeLen, keyLen)
  {
    hide TextFrom;
    if codeLen == 0 || codeLen > MAX_KEY_FIELD || keyLen > MAX_KEY_FIELD {
      return Err(InvalidKeyField);
    }
    ghost var bytes := cursor.bytes;
    if LengthError(cursor.bytes, KEYBOARD_HEADER + codeLen + keyLen).Some? {
      return Err(LengthError(cursor.bytes, KEYBOARD_HEADER + codeLen + keyLen).value);
    }
    var codeBytes := cursor.TakeSlice(codeLen);
    var code :- TextFrom(codeBytes.value);
    var keyBytes := cursor.TakeSlice(keyLen);
    assert keyBytes.value == bytes[KEYBOARD_HEADER + codeLen..];
    var key :- TextFrom(keyBytes.value);
    r := Ok((code, key));
  }

  method DecodeKeyboard(bytes: seq<U8>) returns (r: Result<Keyboard, Error>)
    ensures r == ParseKeyboard(bytes)
  {
    hide LeValue, Field, KeyActionFrom, ParseKeyTexts;
    if |bytes| < KEYBOARD_HEADER {
      return Err(Truncated(KEYBOARD_HEADER, |bytes|));
    }
    var cursor := new Cursor(bytes, 2);
    var actionCode := cursor.TakeU8();
    var action :- KeyActionFrom(actionCode);
    var location := cursor.TakeU8();
    var modifiers := cursor.TakeU16();
    var repeat := cursor.TakeU8();
    var reserved := cursor.TakeU8();
    var sequence := cursor.TakeU32();
    var time := cursor.TakeU64();
    var codeLen := cursor.TakeU16();
    var keyLen := cursor.TakeU16();
    var texts :- DecodeKeyTexts(cursor, codeLen, keyLen);
    r := Ok(Keyboard(action, location, repeat != 0, modifiers, sequence, time, texts.0, texts.1));
  }

  method DecodeText(bytes: seq<U8>) returns (r: Result<TextInput, Error>)
    ensures r == ParseText(bytes)
  {
    hide LeValue, Field, TextFrom;
    if |bytes| < TEXT_HEADER {
      return Err(Truncated(TEXT_HEADER, |bytes|));
    }
    var cursor := new Cursor(bytes, 4);
    var sequence := cursor.TakeU32();
    var time := cursor.TakeU64();
    var len := cursor.TakeU32();
    if len == 0 || len > MAX_TEXT {
      return Err(InvalidTextLength(len));
    }
    if LengthError(bytes, TEXT_HEADER + len).Some? {
      return Err(LengthError(bytes, TEXT_HEADER + len).value);
    }
    var textBytes := cursor.TakeSlice(len);
    assert textBytes.value == bytes[TEXT_HEADER..];
    var text :- TextFrom(textBytes.value);
    r := Ok(TextInput(sequence, time, text));
  }

  method DecodeWheel(bytes: seq<U8>) returns (r: Result<Wheel, Error>)
    ensures var raw := ParseWheel(bytes);
      r == if raw.Ok? then Ok(SanitizedWheel(raw.value)) else raw
  {
    hide LeValue, Field, SanitizedWheel;
    if LengthError(bytes, WHEEL_LEN).Some? {
      return Err(LengthError(bytes, WHEEL_LEN).value);
    }
    var cursor := new Cursor(bytes, 2);
    var modifiers := cursor.TakeU16();
    var sequence := cursor.TakeU32();
    var x := cursor.TakeU32();
    var y := cursor.TakeU32();
    var deltaX := cursor.TakeU32();
    var deltaY := cursor.TakeU32();
    var time := cursor.TakeU64();
    r := Ok(SanitizedWheel(Wheel(modifiers, sequence, x, y, deltaX, deltaY, time)));
  }

  method DecodeCommand(bytes: seq<U8>) returns (r: Result<CommandInput, Error>)
    ensures r == ParseCommand(bytes)
  {
    hide LeValue, Field;
    if LengthError(bytes, COMMAND_LEN).Some? {
      return Err(LengthError(bytes, COMMAND_LEN).value);
    }
    var cursor := new Cursor(bytes, 2);
    var code := cursor.TakeU8();
    var command :- CommandFrom(code);
    var reserved := cursor.TakeU8();
    var sequence := cursor.TakeU32();
    var time := cursor.TakeU64();
    r := Ok(CommandInput(command, sequence, time));
  }

  /** `InputMessage::decode`. */
  method DecodeMessage(bytes: seq<U8>) returns (r: Result<Message, Error>)
    ensures r == Decode(bytes)
  {
    hide ParseBatch, ParseWheel, ParseKeyboard, ParseText, ParseCommand, SanitizedSamples, SanitizedWheel;
    if |bytes| < 2 {
      return Err(Truncated(2, |bytes|));
    }
    if bytes[0] != VERSION {
      return Err(InvalidVersion(bytes[0]));
    }
    if bytes[1] == 1 {
      var m :- DecodeBatch(bytes);
      return Ok(PointerMessage(m));
    } else if bytes[1] == 2 {
      var m :- DecodeWheel(bytes);
      return Ok(WheelMessage(m));
    } else if bytes[1] == 3 {
      var m :- DecodeKeyboard(bytes);
      return Ok(KeyboardMessage(m));
    } else if bytes[1] == 4 {
      var m :- DecodeText(bytes);
      return Ok(TextMessage(m));
    } else if bytes[1] == 5 {
      var m :- DecodeCommand(bytes);
      return Ok(CommandMessage(m));
    }
    r := Err(InvalidMessageType(bytes[1]));
  }
}
