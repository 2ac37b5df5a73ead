/** The host's injector as steps over its own record and what Windows holds: everything held is on the
    record, so a reset can let go of it. Every call to Windows may fail; what it does is the argument `io`. */
module Injection {
  import opened Bytes
  import opened Unicode
  import opened Protocol
  import opened VirtualKeys
  import opened Desktop
  import TextTransfer

  datatype Options = Options(pen: bool, touch: bool, mouse: bool, keyboard: bool, gestures: bool, palmRejection: bool)

  datatype PenState = PenState(id: U32, down: bool)

  /** `InjectorState`, as far as it says what is held. */
  datatype Injector = Injector(pen: Option<PenState>, touches: set<U32>, mouse: U16, keys: map<Code, U16>)

  datatype Machine = Machine(i: Injector, d: Desktop, o: Options)

  /** Whether the release of another pen works, whether the injection itself works, how many inputs
      SendInput accepts, and the order in which a reset lifts the recorded keys. */
  datatype Io = Io(releases: bool, works: bool, sent: nat, ups: seq<Native>)

  datatype Contact = Contact(device: Device, action: Action, flags: U16, id: U32)

  type Done = (Machine, bool)

  function Max(a: U32, b: U32): U32 { if a >= b then a else b }

  function SendInput(m: Machine, inputs: seq<Native>, sent: nat): Done {
    if |inputs| <= sent then (m.(d := After(m.d, inputs)), true) else (m.(d := After(m.d, inputs[..sent])), false)
  }

  // ----- pen -----

  /** `release_pen`: the record is dropped before the release is tried. */
  function ReleasePen(m: Machine, works: bool): Done {
    if m.i.pen.None? then (m, true)
    else
      var active := m.i.pen.value;
      var m' := m.(i := m.i.(pen := None));
      if !active.down then (m', true)
      else if !works then (m', false)
      else (m'.(d := m.d.(pens := m.d.pens - {Max(active.id, 1)})), true)
  }

  function InjectPen(m: Machine, s: Contact, io: Io): Done {
    var other := m.i.pen.Some? && m.i.pen.value.id != s.id;
    var (m1, released) := if other then ReleasePen(m, io.releases) else (m, true);
    if !released || !io.works then (m1, false)
    else
      var wasDown := m1.i.pen.Some? && m1.i.pen.value.down;
      var inContact := s.action.Down? || (s.action.Move? && wasDown);
      (m1.(d := m1.d.(pens := Contacts(m1.d.pens, [Frame(Max(s.id, 1), inContact)])),
           i := m1.i.(pen := if s.action.IsTerminal() then None else Some(PenState(s.id, inContact)))), true)
  }

  // ----- touch -----

  /** The recorded contacts of the frame, and the one that is lifted. */
  function InjectTouch(m: Machine, s: Contact, io: Io): Done {
    var id := Max(s.id, 1);
    var touches := if s.action.Down? || s.action.Move? then m.i.touches + {id} else m.i.touches;
    var m1 := m.(i := m.i.(touches := touches));
    var kept := if s.action.Down? || s.action.Move? then touches else touches - {id};
    var lifted := if s.action.IsTerminal() then {id} else {};
    if kept + lifted != {} && !io.works then (m1, false)
    else (m1.(d := m.d.(touches := m.d.touches + kept - lifted), i := m1.i.(touches := touches - lifted)), true)
  }

  // ----- mouse -----

  function MouseInputs(i: Injector, s: Contact): seq<Native> {
    (if s.action.Cancel? then [] else [Passing]) + ButtonChanges(i.mouse, s.flags, BUTTONS)
  }

  function InjectMouse(m: Machine, s: Contact, io: Io): Done {
    var (m1, ok) := SendInput(m, MouseInputs(m.i, s), io.sent);
    if !ok then (m1, false)
    else (m1.(i := m1.i.(mouse := if s.action.IsTerminal() then 0 else s.flags)), true)
  }

  function InjectSample(m: Machine, s: Contact, io: Io): Done {
    match s.device
    case Pen => if m.o.pen then InjectPen(m, s, io) else (m, true)
    case Touch =>
      if m.o.touch && !(m.o.palmRejection && m.i.pen.Some? && m.i.pen.value.down) then InjectTouch(m, s, io) else (m, true)
    case Mouse => if m.o.mouse then InjectMouse(m, s, io) else (m, true)
  }

  /** The samples of a batch in order, up to the first that fails. */
  function InjectSamples(m: Machine, samples: seq<Contact>, ios: seq<Io>): Done
    requires |samples| == |ios|
    decreases |samples|
  {
    if samples == [] then (m, true)
    else
      var (m1, ok) := InjectSample(m, samples[0], ios[0]);
      if ok then InjectSamples(m1, samples[1..], ios[1..]) else (m1, false)
  }

  // ----- keyboard, text and commands -----

  function Keystroke(key: U16, up: bool): Native { KeyInput(key, up, IsExtended(key)) }

  function InjectKeyboard(m: Machine, code: Code, action: KeyAction, io: Io): Done {
    if !m.o.keyboard then (m, true)
    else if VirtualKey(code).None? then (m, false)
    else
      var mapped := VirtualKey(code).value;
      match action
      case KeyDown =>
        var (m1, ok) := SendInput(m, [KeyInput(mapped, false, IsExtended(mapped))], io.sent);
        if !ok then (m1, false) else (m1.(i := m1.i.(keys := m1.i.keys[code := mapped])), true)
      case KeyUp =>
        var key := if code in m.i.keys then m.i.keys[code] else mapped;
        SendInput(m.(i := m.i.(keys := m.i.keys - {code})), [KeyInput(key, true, IsExtended(mapped))], io.sent)
  }

  function NativeOf(e: TextTransfer.KeyEvent): Native {
    match e
    case Virtual(key, up) => KeyInput(key, up, false)
    case Unit(_, _) => Passing
  }

  function Natives(events: seq<TextTransfer.KeyEvent>): (r: seq<Native>)
    ensures |r| == |events| && forall i :: 0 <= i < |r| ==> r[i] == NativeOf(events[i])
  {
    seq(|events|, i requires 0 <= i < |events| => NativeOf(events[i]))
  }

  function InjectText(m: Machine, text: Text, io: Io): Done {
    if !m.o.keyboard then (m, true) else SendInput(m, Natives(TextTransfer.Events(text, false)), io.sent)
  }

  /** All keys down in order, then up in reverse order. */
  function ChordInputs(keys: seq<(U16, bool)>): (r: seq<Native>)
    ensures |r| == 2 * |keys|
  {
    if keys == [] then []
    else [KeyInput(keys[0].0, false, keys[0].1)] + ChordInputs(keys[1..]) + [KeyInput(keys[0].0, true, keys[0].1)]
  }

  function Chord(c: Command): seq<(U16, bool)> {
    match c
    case AppNext => [(0x12, false), (0x09, false)]
    case AppPrevious => [(0x12, false), (0x10, false), (0x09, false)]
    case TaskView => [(0x5B, true), (0x09, false)]
    case _ => []
  }

  function InjectCommand(m: Machine, c: Command, io: Io): Done {
    if c != ResetInput && !m.o.gestures then (m, true)
    else
      match c
      case MinimizeForeground => (m, io.works)
      case ResetInput => ResetAll(m, io)
      case _ => SendInput(m, ChordInputs(Chord(c)), io.sent)
  }

  // ----- reset -----

  /** An order in which every recorded key is lifted. */
  predicate Lifts(i: Injector, ups: seq<Native>) {
    && (forall n :: n in ups ==> n.KeyInput? && n.key in i.keys.Values && n == Keystroke(n.key, true))
    && (forall code :: code in i.keys ==> Keystroke(i.keys[code], true) in ups)
  }

  function ReleaseRemoteState(m: Machine, io: Io): Done {
    var (m1, ok) := SendInput(m, ButtonChanges(m.i.mouse, 0, BUTTONS) + io.ups, io.sent);
    if !ok then (m1, false) else (m1.(i := m1.i.(mouse := 0, keys := map[])), true)
  }

  function ReleaseTouches(m: Machine, works: bool): Done {
    if m.i.touches == {} then (m, true)
    else if !works then (m, false)
    else (m.(d := m.d.(touches := m.d.touches - m.i.touches), i := m.i.(touches := {})), true)
  }

  function ResetAll(m: Machine, io: Io): Done {
    var (m1, ok1) := ReleasePen(m, io.releases);
    if !ok1 then (m1, false)
    else
      var (m2, ok2) := ReleaseTouches(m1, io.works);
      if !ok2 then (m2, false) else ReleaseRemoteState(m2, io)
  }

  // ----- calls -----

  datatype Call =
    | OnSample(s: Contact, io: Io)
    | OnKey(code: Code, action: KeyAction, io: Io)
    | OnText(text: Text, io: Io)
    | OnCommand(command: Command, io: Io)
    | OnOptions(options: Options)
    | OnReset(io: Io)

  function Apply(m: Machine, c: Call): Done {
    match c
    case OnSample(s, io) => InjectSample(m, s, io)
    case OnKey(code, action, io) => InjectKeyboard(m, code, action, io)
    case OnText(text, io) => InjectText(m, text, io)
    case OnCommand(command, io) => InjectCommand(m, command, io)
    case OnOptions(options) => (m.(o := options), true)
    case OnReset(io) => ResetAll(m, io)
  }
}
