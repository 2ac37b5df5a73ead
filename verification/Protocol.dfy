/** The five input messages and their packets: what an encoder must write (`Layout`) and what a
    decoder must answer for any bytes at all (`Decode`). Floats are bit patterns. */
module Protocol {
  import opened Bytes
  import opened Floats
  import opened Unicode
  import Twist

  const VERSION: U8 := 1
  const BATCH_HEADER := 16
  const SAMPLE_LEN := 44
  const MAX_SAMPLES := 512
  const WHEEL_LEN := 32
  const KEYBOARD_HEADER := 24
  const TEXT_HEADER := 20
  const COMMAND_LEN := 16
  const MAX_KEY_FIELD := 64
  const MAX_TEXT := 4096

  datatype Device = Pen | Touch | Mouse
  datatype Action = Down | Move | Up | Cancel | Hover {
    predicate IsTerminal() { Up? || Cancel? }
  }
  datatype KeyAction = KeyDown | KeyUp
  datatype Command = AppNext | AppPrevious | MinimizeForeground | TaskView | ResetInput

  datatype Sample = Sample(
    device: Device, action: Action, flags: U16, pointerId: U32, sequence: U32,
    x: F32, y: F32, pressure: F32, tiltX: F32, tiltY: F32, twist: F32, time: F64)

  datatype Batch = Batch(sequence: U32, sendTime: F64, samples: seq<Sample>)
  datatype Wheel = Wheel(modifiers: U16, sequence: U32, x: F32, y: F32, deltaX: F32, deltaY: F32, time: F64)
  datatype Keyboard = Keyboard(
    action: KeyAction, location: U8, repeat: bool, modifiers: U16, sequence: U32, time: U64, code: Text, key: Text)
  datatype TextInput = TextInput(sequence: U32, time: U64, text: Text)
  datatype CommandInput = CommandInput(command: Command, sequence: U32, time: U64)

  datatype Message =
    | PointerMessage(batch: Batch)
    | WheelMessage(wheel: Wheel)
    | KeyboardMessage(keyboard: Keyboard)
    | TextMessage(text: TextInput)
    | CommandMessage(command: CommandInput)

  datatype Error =
    | InvalidVersion(found: U8)
    | InvalidMessageType(found: U8)
    | InvalidDevice(found: U8)
    | InvalidAction(found: U8)
    | InvalidKeyboardAction(found: U8)
    | InvalidCommand(found: U8)
    | InvalidKeyField
    | InvalidTextLength(bytes: nat)
    | InvalidUtf8
    | TooManySamples(count: nat)
    | Truncated(expected: nat, actual: nat)
    | TrailingBytes(count: nat)

  function DeviceCode(d: Device): U8 { match d case Pen => 1 case Touch => 2 case Mouse => 3 }
  function ActionCode(a: Action): U8 {
    match a case Down => 1 case Move => 2 case Up => 3 case Cancel => 4 case Hover => 5
  }
  function KeyActionCode(a: KeyAction): U8 { match a case KeyDown => 1 case KeyUp => 2 }
  function CommandCode(c: Command): U8 {
    match c
    case AppNext => 1 case AppPrevious => 2 case MinimizeForeground => 3 case TaskView => 4 case ResetInput => 5
  }

  function DeviceFrom(b: U8): Result<Device, Error> {
    if b == 1 then Ok(Pen) else if b == 2 then Ok(Touch) else if b == 3 then Ok(Mouse) else Err(InvalidDevice(b))
  }
  function ActionFrom(b: U8): Result<Action, Error> {
    if b == 1 then Ok(Down) else if b == 2 then Ok(Move) else if b == 3 then Ok(Up)
    else if b == 4 then Ok(Cancel) else if b == 5 then Ok(Hover) else Err(InvalidAction(b))
  }
  function KeyActionFrom(b: U8): Result<KeyAction, Error> {
    if b == 1 then Ok(KeyDown) else if b == 2 then Ok(KeyUp) else Err(InvalidKeyboardAction(b))
  }
  function CommandFrom(b: U8): Result<Command, Error> {
    if b == 1 then Ok(AppNext) else if b == 2 then Ok(AppPrevious) else if b == 3 then Ok(MinimizeForeground)
    else if b == 4 then Ok(TaskView) else if b == 5 then Ok(ResetInput) else Err(InvalidCommand(b))
  }

  // ----- sanitising -----

  function SanitizedSample(s: Sample): Sample {
    s.(x := Clamp(FiniteOrZero(s.x), ZERO, ONE),
       y := Clamp(FiniteOrZero(s.y), ZERO, ONE),
       pressure := Clamp(FiniteOrZero(s.pressure), ZERO, ONE),
       tiltX := Clamp(FiniteOrZero(s.tiltX), NEG_NINETY, NINETY),
       tiltY := Clamp(FiniteOrZero(s.tiltY), NEG_NINETY, NINETY),
       twist := Twist.WrapTwist(FiniteOrZero(s.twist)),
       time := FiniteOrZero64(s.time))
  }

  function SanitizedSamples(samples: seq<Sample>): (r: seq<Sample>)
    ensures |r| == |samples|
    ensures forall i :: 0 <= i < |r| ==> r[i] == SanitizedSample(samples[i])
  {
    seq(|samples|, i requires 0 <= i < |samples| => SanitizedSample(samples[i]))
  }

  function SanitizedWheel(w: Wheel): Wheel {
    w.(x := Clamp(FiniteOrZero(w.x), ZERO, ONE),
       y := Clamp(FiniteOrZero(w.y), ZERO, ONE),
       deltaX := Clamp(FiniteOrZero(w.deltaX), NEG_TEN_THOUSAND, TEN_THOUSAND),
       deltaY := Clamp(FiniteOrZero(w.deltaY), NEG_TEN_THOUSAND, TEN_THOUSAND),
       time := FiniteOrZero64(w.time))
  }

  /** What the receiver of a message sees. */
  function Sanitized(m: Message): Message {
    match m
    case PointerMessage(b) =>
      PointerMessage(Batch(b.sequence, FiniteOrZero64(b.sendTime), SanitizedSamples(b.samples)))
    case WheelMessage(w) => WheelMessage(SanitizedWheel(w))
    case _ => m
  }

  /** What the Rust encoders write: they leave the send time of a batch alone. */
  function SanitizedForSending(m: Message): Message {
    match m
    case PointerMessage(b) => PointerMessage(b.(samples := SanitizedSamples(b.samples)))
    case WheelMessage(w) => WheelMessage(SanitizedWheel(w))
    case _ => m
  }

  // ----- encoding -----

  predicate IsAscii(b: seq<U8>) { forall i :: 0 <= i < |b| ==> b[i] < 0x80 }

  function KeyFieldsError(code: seq<U8>, key: seq<U8>): Option<Error> {
    if 1 <= |code| <= MAX_KEY_FIELD && |key| <= MAX_KEY_FIELD && IsAscii(code) then None else Some(InvalidKeyField)
  }

  function EncodeError(m: Message): Option<Error> {
    match m
    case PointerMessage(b) => if |b.samples| > MAX_SAMPLES then Some(TooManySamples(|b.samples|)) else None
    case KeyboardMessage(k) => KeyFieldsError(Utf8(k.code), Utf8(k.key))
    case TextMessage(t) => if 1 <= |Utf8(t.text)| <= MAX_TEXT then None else Some(InvalidTextLength(|Utf8(t.text)|))
    case _ => None
  }

  predicate Encodable(m: Message) { EncodeError(m).None? }

  function SampleBytes(s: Sample): (b: seq<U8>)
    ensures |b| == SAMPLE_LEN
  {
    [DeviceCode(s.device), ActionCode(s.action)] + (LeBytes(s.flags, 2) + (LeBytes(s.pointerId, 4) + (
    LeBytes(s.sequence, 4) + (LeBytes(s.x, 4) + (LeBytes(s.y, 4) + (LeBytes(s.pressure, 4) + (
    LeBytes(s.tiltX, 4) + (LeBytes(s.tiltY, 4) + (LeBytes(s.twist, 4) + LeBytes(s.time, 8))))))))))
  }

  function SamplesBytes(samples: seq<Sample>): (b: seq<U8>)
    ensures |b| == SAMPLE_LEN * |samples|
  {
    if samples == [] then [] else SampleBytes(samples[0]) + SamplesBytes(samples[1..])
  }

  function BatchBytes(b: Batch): (r: seq<U8>)
    ensures |r| == BATCH_HEADER + SAMPLE_LEN * |b.samples|
  {
    [VERSION, 1] + (LeBytes(|b.samples|, 2) + (LeBytes(b.sequence, 4) + (LeBytes(b.sendTime, 8) +
    SamplesBytes(b.samples))))
  }

  function WheelBytes(w: Wheel): (r: seq<U8>)
    ensures |r| == WHEEL_LEN
  {
    [VERSION, 2] + (LeBytes(w.modifiers, 2) + (LeBytes(w.sequence, 4) + (LeBytes(w.x, 4) + (LeBytes(w.y, 4) +
    (LeBytes(w.deltaX, 4) + (LeBytes(w.deltaY, 4) + LeBytes(w.time, 8)))))))
  }

  function KeyboardBytes(k: Keyboard): (r: seq<U8>)
    ensures |r| == KEYBOARD_HEADER + |Utf8(k.code)| + |Utf8(k.key)|
  {
    [VERSION, 3, KeyActionCode(k.action), k.location] + (LeBytes(k.modifiers, 2) +
    ([if k.repeat then 1 else 0, 0] + (LeBytes(k.sequence, 4) + (LeBytes(k.time, 8) +
    (LeBytes(|Utf8(k.code)|, 2) + (LeBytes(|Utf8(k.key)|, 2) + (Utf8(k.code) + Utf8(k.key))))))))
  }

  function TextBytes(t: TextInput): (r: seq<U8>)
    ensures |r| == TEXT_HEADER + |Utf8(t.text)|
  {
    [VERSION, 4, 0, 0] + (LeBytes(t.sequence, 4) + (LeBytes(t.time, 8) + (LeBytes(|Utf8(t.text)|, 4) + Utf8(t.text))))
  }

  function CommandBytes(c: CommandInput): (r: seq<U8>)
    ensures |r| == COMMAND_LEN
  {
    [VERSION, 5, CommandCode(c.command), 0] + (LeBytes(c.sequence, 4) + LeBytes(c.time, 8))
  }

  /** The packet of a message whose fields are written as they are. */
  function Layout(m: Message): seq<U8> {
    match m
    case PointerMessage(b) => BatchBytes(b)
    case WheelMessage(w) => WheelBytes(w)
    case KeyboardMessage(k) => KeyboardBytes(k)
    case TextMessage(t) => TextBytes(t)
    case CommandMessage(c) => CommandBytes(c)
  }

  /** The Rust encoders. */
  function Encode(m: Message): Result<seq<U8>, Error> {
    match EncodeError(m)
    case Some(e) => Err(e)
    case None => Ok(Layout(SanitizedForSending(m)))
  }

  // ----- decoding -----

  /** The n-byte number at position `at`. */
  function Field(b: seq<U8>, at: nat, n: nat): (x: nat)
    requires at + n <= |b|
    ensures x < Pow256(n)
  {
    LeValue(b[at..at + n])
  }

  function Field16(b: seq<U8>, at: nat): U16
    requires at + 2 <= |b|
  {
    Widths(); Field(b, at, 2)
  }

  function Field32(b: seq<U8>, at: nat): U32
    requires at + 4 <= |b|
  {
    Widths(); Field(b, at, 4)
  }

  function Field64(b: seq<U8>, at: nat): U64
    requires at + 8 <= |b|
  {
    Widths(); Field(b, at, 8)
  }

  function LengthError(b: seq<U8>, expected: nat): Option<Error> {
    if |b| < expected then Some(Truncated(expected, |b|))
    else if |b| > expected then Some(TrailingBytes(|b| - expected))
    else None
  }

  function ParseSample(b: seq<U8>, at: nat): Result<Sample, Error>
    requires at + SAMPLE_LEN <= |b|
  {
    var device :- DeviceFrom(b[at]);
    var action :- ActionFrom(b[at + 1]);
    Ok(Sample(device, action, Field16(b, at + 2), Field32(b, at + 4), Field32(b, at + 8),
              Field32(b, at + 12), Field32(b, at + 16), Field32(b, at + 20), Field32(b, at + 24),
              Field32(b, at + 28), Field32(b, at + 32), Field64(b, at + 36)))
  }

  /** The samples of a packet from number i on. */
  function ParseSamples(b: seq<U8>, i: nat, n: nat): (r: Result<seq<Sample>, Error>)
    requires i <= n && |b| == BATCH_HEADER + SAMPLE_LEN * n
    ensures r.Ok? ==> |r.value| == n - i
    decreases n - i
  {
    if i == n then Ok([])
    else
      var first :- ParseSample(b, BATCH_HEADER + SAMPLE_LEN * i);
      var rest :- ParseSamples(b, i + 1, n);
      Ok([first] + rest)
  }

  function ParseBatch(b: seq<U8>): Result<Batch, Error> {
    if |b| < BATCH_HEADER then Err(Truncated(BATCH_HEADER, |b|))
    else if b[0] != VERSION then Err(InvalidVersion(b[0]))
    else if b[1] != 1 then Err(InvalidMessageType(b[1]))
    else if Field16(b, 2) > MAX_SAMPLES then Err(TooManySamples(Field16(b, 2)))
    else if LengthError(b, BATCH_HEADER + SAMPLE_LEN * Field16(b, 2)).Some? then
      Err(LengthError(b, BATCH_HEADER + SAMPLE_LEN * Field16(b, 2)).value)
    else
      var samples :- ParseSamples(b, 0, Field16(b, 2));
      Ok(Batch(Field32(b, 4), Field64(b, 8), samples))
  }

  function ParseWheel(b: seq<U8>): Result<Wheel, Error> {
    if LengthError(b, WHEEL_LEN).Some? then Err(LengthError(b, WHEEL_LEN).value)
    else
      Ok(Wheel(Field16(b, 2), Field32(b, 4), Field32(b, 8), Field32(b, 12), Field32(b, 16), Field32(b, 20), Field64(b, 24)))
  }

  function TextFrom(b: seq<U8>): Result<Text, Error> {
    match FromUtf8(b) case Some(s) => Ok(s) case None => Err(InvalidUtf8)
  }

  /** The code and the key, whose lengths the header has given. */
  function ParseKeyTexts(b: seq<U8>, codeLen: nat, keyLen: nat): Result<(Text, Text), Error> {
    if codeLen == 0 || codeLen > MAX_KEY_FIELD || keyLen > MAX_KEY_FIELD then Err(InvalidKeyField)
    else if LengthError(b, KEYBOARD_HEADER + codeLen + keyLen).Some? then
      Err(LengthError(b, KEYBOARD_HEADER + codeLen + keyLen).value)
    else
      var code :- TextFrom(b[KEYBOARD_HEADER..KEYBOARD_HEADER + codeLen]);
      var key :- TextFrom(b[KEYBOARD_HEADER + codeLen..]);
      Ok((code, key))
  }

  function ParseKeyboard(b: seq<U8>): Result<Keyboard, Error> {
    if |b| < KEYBOARD_HEADER then Err(Truncated(KEYBOARD_HEADER, |b|))
    else
      var action :- KeyActionFrom(b[2]);
      var texts :- ParseKeyTexts(b, Field16(b, 20), Field16(b, 22));
      Ok(Keyboard(action, b[3], b[6] != 0, Field16(b, 4), Field32(b, 8), Field64(b, 12), texts.0, texts.1))
  }

  function ParseText(b: seq<U8>): Result<TextInput, Error> {
    if |b| < TEXT_HEADER then Err(Truncated(TEXT_HEADER, |b|))
    else
      var len := Field32(b, 16);
      if len == 0 || len > MAX_TEXT then Err(InvalidTextLength(len))
      else if LengthError(b, TEXT_HEADER + len).Some? then Err(LengthError(b, TEXT_HEADER + len).value)
      else
        var text :- TextFrom(b[TEXT_HEADER..]);
        Ok(TextInput(Field32(b, 4), Field64(b, 8), text))
  }

  function ParseCommand(b: seq<U8>): Result<CommandInput, Error> {
    if LengthError(b, COMMAND_LEN).Some? then Err(LengthError(b, COMMAND_LEN).value)
    else
      var command :- CommandFrom(b[2]);
      Ok(CommandInput(command, Field32(b, 4), Field64(b, 8)))
  }

  /** The message in a packet, field by field, before sanitising. */
  function Parse(b: seq<U8>): Result<Message, Error> {
    if |b| < 2 then Err(Truncated(2, |b|))
    else if b[0] != VERSION then Err(InvalidVersion(b[0]))
    else if b[1] == 1 then var m :- ParseBatch(b); Ok(PointerMessage(m))
    else if b[1] == 2 then var m :- ParseWheel(b); Ok(WheelMessage(m))
    else if b[1] == 3 then var m :- ParseKeyboard(b); Ok(KeyboardMessage(m))
    else if b[1] == 4 then var m :- ParseText(b); Ok(TextMessage(m))
    else if b[1] == 5 then var m :- ParseCommand(b); Ok(CommandMessage(m))
    else Err(InvalidMessageType(b[1]))
  }

  /** `InputMessage::decode`. */
  function Decode(b: seq<U8>): Result<Message, Error> {
    var m :- Parse(b);
    Ok(Sanitized(m))
  }
}
