/** `PointerInjector` as it stands: it keeps its record in fields, builds lists of inputs in loops and
    updates the record around the calls to Windows. Every method takes exactly the step of module
    Injection. */
module PointerInjector {
  import opened Bytes
  import opened Unicode
  import opened Protocol
  import opened VirtualKeys
  import opened Desktop
  import opened Injection
  import TextTransfer

  class PointerInjector {
    var pen: Option<PenState>
    var touches: set<U32>
    var mouseButtons: U16
    var pressedKeys: map<Code, U16>
    var options: Options
    /** What Windows holds. */
    var desktop: Desktop

    function State(): Machine
      reads this
    {
      Machine(Injector(pen, touches, mouseButtons, pressedKeys), desktop, options)
    }

    constructor (options: Options)
      ensures State() == Machine(Injector(None, {}, 0, map[]), IDLE, options)
    {
      pen, touches, mouseButtons, pressedKeys, this.options, desktop := None, {}, 0, map[], options, IDLE;
    }

    /** `send_native_inputs`: Windows accepts the first `sent` of them at most. */
    method SendNativeInputs(inputs: seq<Native>, sent: nat) returns (ok: bool)
      modifies this`desktop
      ensures (State(), ok) == SendInput(old(State()), inputs, sent)
    {
      if |inputs| <= sent {
        desktop := After(desktop, inputs);
        return true;
      }
      desktop := After(desktop, inputs[..sent]);
      return false;
    }

    method ReleasePenContact(works: bool) returns (ok: bool)
      modifies this`pen, this`desktop
      ensures (State(), ok) == ReleasePen(old(State()), works)
    {
      if pen.None? { return true; }
      var active := pen.value;
      pen := None;
      if !active.down { return true; }
      if !works { return false; }
      desktop := desktop.(pens := desktop.pens - {Max(active.id, 1)});
      return true;
    }

    method InjectPenSample(s: Contact, io: Io) returns (ok: bool)
      modifies this`pen, this`desktop
      ensures (State(), ok) == InjectPen(old(State()), s, io)
    {
      if pen.Some? && pen.value.id != s.id {
        var released := ReleasePenContact(io.releases);
        if !released { return false; }
      }
      var wasDown := pen.Some? && pen.value.down;
      var inContact := match s.action
        case Down => true
        case Move => wasDown
        case _ => false;
      if !io.works { return false; }
      desktop := desktop.(pens := Contacts(desktop.pens, [Frame(Max(s.id, 1), inContact)]));
      if s.action.IsTerminal() {
        pen := None;
      } else {
        pen := Some(PenState(s.id, (s.action.Down? || s.action.Move?) && (s.action.Down? || wasDown)));
      }
      return true;
    }

    /** The contacts of the frame, in whatever order the map gives them. */
    method TouchFrames(id: U32, action: Action, ghost held: set<U32>) returns (frames: seq<Frame>)
      ensures var kept := if action.Down? || action.Move? then touches else touches - {id};
        var lifted := if action.IsTerminal() then {id} else {};
        (frames == [] <==> kept + lifted == {}) && Contacts(held, frames) == held + kept - lifted
    {
      frames := [];
      var left := touches;
      ghost var on: set<U32>, off: set<U32> := {}, {};
      while left != {}
        invariant left <= touches && on == touches - left - (if action.Down? || action.Move? then {} else {id})
        invariant off == if action.IsTerminal() && id in touches - left then {id} else {}
        invariant (frames == [] <==> on + off == {}) && Contacts(held, frames) == held + on - off
        decreases left
      {
        var next :| next in left;
        if next != id {
          OneMoreFrame(held, frames, Frame(next, true));
          frames := frames + [Frame(next, true)];
          on := on + {next};
        } else if action.Down? || action.Move? {
          OneMoreFrame(held, frames, Frame(next, true));
          frames := frames + [Frame(next, true)];
          on := on + {next};
        } else if !action.Hover? {
          OneMoreFrame(held, frames, Frame(next, false));
          frames := frames + [Frame(next, false)];
          off := off + {next};
        }
        left := left - {next};
      }
      if action.IsTerminal() && id !in touches {
        OneMoreFrame(held, frames, Frame(id, false));
        frames := frames + [Frame(id, false)];
        off := off + {id};
      }
    }

    method InjectTouchSample(s: Contact, io: Io) returns (ok: bool)
      modifies this`touches, this`desktop
      ensures (State(), ok) == InjectTouch(old(State()), s, io)
    {
      hide Contacts;
      var id := Max(s.id, 1);
      ghost var kept := if s.action.Down? || s.action.Move? then touches + {id} else touches - {id};
      ghost var lifted := if s.action.IsTerminal() then {id} else {};
      if s.action.Down? || s.action.Move? { touches := touches + {id}; }
      var frames := TouchFrames(id, s.action, desktop.touches);
      assert (frames == [] <==> kept + lifted == {}) && Contacts(desktop.touches, frames) == desktop.touches + kept - lifted;
      if frames == [] { assert Contacts(desktop.touches, frames) == desktop.touches by { NoFrames(desktop.touches); } }
      if frames != [] {
        if !io.works { return false; }
        desktop := desktop.(touches := Contacts(desktop.touches, frames));
      }
      assert !s.action.IsTerminal() ==> touches - lifted == touches;
      if s.action.IsTerminal() { touches := touches - {id}; }
      return true;
    }

    method AppendButton(before: seq<Native>, previous: U16, current: U16, button: nat) returns (inputs: seq<Native>)
      ensures inputs == before + ButtonChange(previous, current, button)
    {
      inputs := before;
      if !HasButton(previous, button) && HasButton(current, button) {
        inputs := inputs + [ButtonInput(button, false)];
      } else if HasButton(previous, button) && !HasButton(current, button) {
        inputs := inputs + [ButtonInput(button, true)];
      }
    }

    /** Primary, secondary, auxiliary, back, forward. */
    method AppendMouseButtonChanges(before: seq<Native>, previous: U16, current: U16) returns (inputs: seq<Native>)
      ensures inputs == before + ButtonChanges(previous, current, BUTTONS)
    {
      hide HasButton, ButtonChange, ButtonChanges;
      inputs := before;
      ButtonsSoFar(before, previous, current, 0);
      for button := 0 to BUTTONS
        invariant inputs == before + ButtonChanges(previous, current, button)
      {
        ButtonsSoFar(before, previous, current, button + 1);
        inputs := AppendButton(inputs, previous, current, button);
      }
    }

    method InjectMouseSample(s: Contact, io: Io) returns (ok: bool)
      modifies this`mouseButtons, this`desktop
      ensures (State(), ok) == InjectMouse(old(State()), s, io)
    {
      hide After, ButtonChanges;
      var inputs: seq<Native> := [];
      if !s.action.Cancel? { inputs := [Passing]; }
      inputs := AppendMouseButtonChanges(inputs, mouseButtons, s.flags);
      ok := SendNativeInputs(inputs, io.sent);
      if ok { mouseButtons := if s.action.IsTerminal() then 0 else s.flags; }
    }

    /** One round of the loop of `inject_batch`. */
    method InjectOne(s: Contact, io: Io) returns (ok: bool)
      modifies this
      ensures (State(), ok) == InjectSample(old(State()), s, io)
    {
      hide InjectPen, InjectTouch, InjectMouse;
      match s.device
      case Pen => if options.pen { ok := InjectPenSample(s, io); } else { ok := true; }
      case Touch =>
        if options.touch && !(options.palmRejection && pen.Some? && pen.value.down) { ok := InjectTouchSample(s, io); }
        else { ok := true; }
      case Mouse => if options.mouse { ok := InjectMouseSample(s, io); } else { ok := true; }
    }

    method InjectBatch(samples: seq<Contact>, ios: seq<Io>) returns (ok: bool)
      requires |samples| == |ios|
      modifies this
      ensures (State(), ok) == InjectSamples(old(State()), samples, ios)
    {
      hide InjectSample;
      assert samples[0..] == samples && ios[0..] == ios;
      for i := 0 to |samples|
        invariant InjectSamples(State(), samples[i..], ios[i..]) == InjectSamples(old(State()), samples, ios)
      {
        assert samples[i..][1..] == samples[i + 1..] && ios[i..][1..] == ios[i + 1..];
        ok := InjectOne(samples[i], ios[i]);
        if !ok { return false; }
      }
      return true;
    }

    method InjectKeyboardNative(code: Code, action: KeyAction, io: Io) returns (ok: bool)
      modifies this`pressedKeys, this`desktop
      ensures (State(), ok) == InjectKeyboard(old(State()), code, action, io)
    {
      hide VirtualKey, IsExtended, After;
      if !options.keyboard { return true; }
      var found := VirtualKey(code);
      if found.None? { return false; }
      var virtualKey := found.value;
      var extended := IsExtended(virtualKey);
      match action
      case KeyDown =>
        ok := SendNativeInputs([KeyInput(virtualKey, false, extended)], io.sent);
        if ok { pressedKeys := pressedKeys[code := virtualKey]; }
      case KeyUp =>
        if code in pressedKeys { virtualKey := pressedKeys[code]; }
        pressedKeys := pressedKeys - {code};
        ok := SendNativeInputs([KeyInput(virtualKey, true, extended)], io.sent);
    }

    method InjectTextNative(text: Text, io: Io) returns (ok: bool)
      modifies this`desktop
      ensures (State(), ok) == InjectText(old(State()), text, io)
    {
      if !options.keyboard { return true; }
      var events := TextTransfer.InjectText(text);
      ok := SendNativeInputs(Natives(events), io.sent);
    }

    /** `send_chord`. */
    method SendChord(keys: seq<(U16, bool)>, io: Io) returns (ok: bool)
      modifies this`desktop
      ensures (State(), ok) == SendInput(old(State()), ChordInputs(keys), io.sent)
    {
      hide After;
      var inputs: seq<Native> := [];
      for i := 0 to |keys|
        invariant inputs == Downs(keys[..i]) && State() == old(State())
      {
        assert keys[..i + 1][..i] == keys[..i];
        inputs := inputs + [KeyInput(keys[i].0, false, keys[i].1)];
      }
      assert keys[..|keys|] == keys;
      var i := |keys|;
      while i > 0
        invariant 0 <= i <= |keys|
        invariant inputs == Downs(keys) + Ups(keys[i..]) && State() == old(State())
      {
        i := i - 1;
        UpsMore(keys, i);
        inputs := inputs + [KeyInput(keys[i].0, true, keys[i].1)];
      }
      assert keys[0..] == keys;
      ChordIsDownsAndUps(keys);
      assert inputs == ChordInputs(keys);
      ok := SendNativeInputs(inputs, io.sent);
    }

    /** `release_remote_state`; `order` is the order in which the map gave the keys. */
    method ReleaseRemote(io: Io) returns (ok: bool, ghost order: seq<Native>)
      modifies this`mouseButtons, this`pressedKeys, this`desktop
      ensures Lifts(old(State()).i, order)
      ensures (State(), ok) == ReleaseRemoteState(old(State()), io.(ups := order))
    {
      hide After, ButtonChanges, IsExtended;
      var inputs := AppendMouseButtonChanges([], mouseButtons, 0);
      assert [] + ButtonChanges(mouseButtons, 0, BUTTONS) == ButtonChanges(mouseButtons, 0, BUTTONS);
      var codes := pressedKeys.Keys;
      order := [];
      while codes != {}
        invariant State() == old(State()) && codes <= pressedKeys.Keys
        invariant inputs == ButtonChanges(mouseButtons, 0, BUTTONS) + order
        invariant Lifts(State().i.(keys := pressedKeys - codes), order)
        decreases codes
      {
        var code :| code in codes;
        OneMoreLift(State().i, codes, order, code);
        inputs := inputs + [KeyInput(pressedKeys[code], true, IsExtended(pressedKeys[code]))];
        order := order + [Keystroke(pressedKeys[code], true)];
        codes := codes - {code};
      }
      assert pressedKeys - codes == pressedKeys;
      ok := SendNativeInputs(inputs, io.sent);
      if ok {
        mouseButtons := 0;
        pressedKeys := map[];
      }
    }

    /** `reset_all`. */
    method Reset(io: Io) returns (ok: bool, ghost order: seq<Native>)
      modifies this
      ensures ok ==> Lifts(old(State()).i, order)
      ensures (State(), ok) == ResetAll(old(State()), io.(ups := order))
    {
      hide ReleaseRemoteState, Lifts;
      order := [];
      ok := ReleasePenContact(io.releases);
      if !ok { return; }
      if touches != {} {
        if !io.works { ok := false; return; }
        desktop := desktop.(touches := desktop.touches - touches);
        touches := {};
      }
      ghost var before := State().i;
      ok, order := ReleaseRemote(io);
      SameKeysLifted(before, old(State()).i, order);
    }

    method InjectCommandInput(command: Command, io: Io) returns (ok: bool, ghost order: seq<Native>)
      modifies this
      ensures (State(), ok) == InjectCommand(old(State()), command, io.(ups := order))
    {
      hide ResetAll, SendInput, ChordInputs;
      order := [];
      if command != ResetInput && !options.gestures { return true, []; }
      match command
      case MinimizeForeground => ok := io.works;
      case ResetInput => ok, order := Reset(io);
      case AppNext => ok := SendChord([(0x12, false), (0x09, false)], io);
      case AppPrevious => ok := SendChord([(0x12, false), (0x10, false), (0x09, false)], io);
      case TaskView => ok := SendChord([(0x5B, true), (0x09, false)], io);
    }
  }

  lemma NoFrames(held: set<U32>)
    ensures Contacts(held, []) == held
  {
  }

  lemma OneMoreFrame(held: set<U32>, frames: seq<Frame>, f: Frame)
    ensures Contacts(held, frames + [f]) ==
      if f.inContact then Contacts(held, frames) + {f.id} else Contacts(held, frames) - {f.id}
  {
    assert (frames + [f])[..|frames|] == frames;
  }

  lemma ButtonsSoFar(before: seq<Native>, previous: U16, current: U16, n: nat)
    ensures n == 0 ==> before + ButtonChanges(previous, current, n) == before
    ensures n > 0 ==> (before + ButtonChanges(previous, current, n) ==
              before + ButtonChanges(previous, current, n - 1) + ButtonChange(previous, current, n - 1))
  {
  }

  function Downs(keys: seq<(U16, bool)>): seq<Native> {
    if keys == [] then [] else Downs(keys[..|keys| - 1]) + [KeyInput(keys[|keys| - 1].0, false, keys[|keys| - 1].1)]
  }

  function Ups(keys: seq<(U16, bool)>): seq<Native> {
    if keys == [] then [] else Ups(keys[1..]) + [KeyInput(keys[0].0, true, keys[0].1)]
  }

  lemma UpsMore(keys: seq<(U16, bool)>, i: nat)
    requires i < |keys|
    ensures Ups(keys[i..]) == Ups(keys[i + 1..]) + [KeyInput(keys[i].0, true, keys[i].1)]
  {
    assert keys[i..][1..] == keys[i + 1..];
  }

  lemma {:induction false} DownsFirst(keys: seq<(U16, bool)>)
    requires keys != []
    ensures Downs(keys) == [KeyInput(keys[0].0, false, keys[0].1)] + Downs(keys[1..])
  {
    if |keys| > 1 {
      DownsFirst(keys[..|keys| - 1]);
      assert keys[..|keys| - 1][1..] == keys[1..][..|keys| - 2];
    }
  }

  lemma {:induction false} ChordIsDownsAndUps(keys: seq<(U16, bool)>)
    ensures ChordInputs(keys) == Downs(keys) + Ups(keys)
  {
    if keys != [] {
      ChordIsDownsAndUps(keys[1..]);
      DownsFirst(keys);
    }
  }

  lemma OneMoreLift(i: Injector, codes: set<Code>, order: seq<Native>, code: Code)
    requires code in codes && codes <= i.keys.Keys && Lifts(i.(keys := i.keys - codes), order)
    ensures Lifts(i.(keys := i.keys - (codes - {code})), order + [Keystroke(i.keys[code], true)])
  {
    hide IsExtended;
    var keys, more := i.keys - codes, i.keys - (codes - {code});
    var last := Keystroke(i.keys[code], true);
    assert code in more && more[code] in more.Values;
    forall n | n in order + [last] ensures n.KeyInput? && n.key in more.Values && n == Keystroke(n.key, true) {
      if n != last {
        var c :| c in keys && keys[c] == n.key;
        assert c in more && more[c] == n.key;
      }
    }
    forall c | c in more ensures Keystroke(more[c], true) in order + [last] {
      if c != code { assert c in keys && Keystroke(keys[c], true) in order; }
    }
  }

  lemma SameKeysLifted(i: Injector, i': Injector, order: seq<Native>)
    requires Lifts(i, order) && i'.keys == i.keys
    ensures Lifts(i', order)
  {
  }
}
