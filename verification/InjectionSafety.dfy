/** Everything Windows holds for the injector is on its record, so a reset lets go of everything: over every run
    of clean calls, where what is clean is said in terms of the record and of how much Windows takes of a call.
    And where the record is lost. */
module InjectionSafety {
  import opened Bytes
  import opened Unicode
  import opened Protocol
  import opened VirtualKeys
  import opened Desktop
  import opened Injection
  import TextTransfer

  function KeyOf(key: U16): U16 { Physical(key, IsExtended(key)) }

  /** The physical keys on record: several codes can stand for one. */
  function RecordedKeys(keys: map<Code, U16>): (s: set<U16>)
    ensures forall code :: code in keys ==> KeyOf(keys[code]) in s
    ensures forall k :: k in s ==> exists code :: code in keys && KeyOf(keys[code]) == k
  {
    set code | code in keys :: KeyOf(keys[code])
  }

  function RecordedPens(pen: Option<PenState>): set<U32> {
    if pen.Some? && pen.value.down then {Max(pen.value.id, 1)} else {}
  }

  /** What is recorded for a code is the key the code stands for. */
  predicate Mapped(keys: map<Code, U16>) { forall code :: code in keys ==> VirtualKey(code) == Some(keys[code]) }

  predicate OnRecord(m: Machine) {
    && Mapped(m.i.keys)
    && m.d.keys <= RecordedKeys(m.i.keys)
    && m.d.buttons <= Buttons(m.i.mouse)
    && m.d.pens == RecordedPens(m.i.pen)
    && m.d.touches <= m.i.touches
  }

  /** Another pen is recorded in contact. */
  predicate OtherPenDown(pen: Option<PenState>, id: U32) { pen.Some? && pen.value.down && pen.value.id != id }

  /** If a pen is recorded in contact, Windows lets it go. */
  predicate PenReleased(i: Injector, io: Io) { i.pen.Some? && i.pen.value.down ==> io.releases }

  /** Another recorded code stands for the key recorded for this one. */
  predicate AnotherCode(keys: map<Code, U16>, code: Code)
    requires code in keys
  {
    exists c :: c in keys && c != code && KeyOf(keys[c]) == KeyOf(keys[code])
  }

  /** What Windows takes of the inputs. */
  function Accepted(inputs: seq<Native>, sent: nat): (r: seq<Native>)
    ensures r <= inputs
  {
    if |inputs| <= sent then inputs else inputs[..sent]
  }

  /** Taken whole, a sample that ends a stroke names no button; cut short, no button was pressed before the
      cut. */
  predicate MouseClean(i: Injector, s: Contact, sent: nat) {
    var inputs := MouseInputs(i, s);
    if |inputs| <= sent then s.action.IsTerminal() ==> Buttons(s.flags) == {}
    else forall n :: n in inputs[..sent] ==> !(n.ButtonInput? && !n.up)
  }

  const RETURN_DOWN := KeyInput(TextTransfer.RETURN, false, false)
  const RETURN_UP := KeyInput(TextTransfer.RETURN, true, false)

  /** The cut does not come just after Enter went down, unless Enter is recorded. */
  predicate TextClean(keys: map<Code, U16>, text: Text, sent: nat) {
    var accepted := Accepted(Natives(TextTransfer.Events(text, false)), sent);
    accepted != [] && accepted[|accepted| - 1] == RETURN_DOWN ==>
      Physical(TextTransfer.RETURN, false) in RecordedKeys(keys)
  }

  /** How many keys of a chord of n are still down after `sent` of its 2n inputs. */
  function StillDown(n: nat, sent: nat): (r: nat)
    ensures r <= n
  {
    if sent <= n then sent else if sent <= 2 * n then 2 * n - sent else 0
  }

  predicate ChordClean(keys: map<Code, U16>, chord: seq<(U16, bool)>, sent: nat) {
    ChordKeys(chord[..StillDown(|chord|, sent)]) <= RecordedKeys(keys)
  }

  /** What keeps the record right, in terms of the record and of how much Windows takes: pens that are put
      away and keys that are let go really are, or the key is recorded a second time; inputs that Windows cuts
      short leave nothing down that is not recorded; a mouse sample that ends says that no button is down. */
  predicate Clean(i: Injector, o: Options, c: Call) {
    match c
    case OnSample(s, io) =>
      (match s.device
       case Pen => o.pen && OtherPenDown(i.pen, s.id) ==> io.releases
       case Touch => true
       case Mouse => o.mouse ==> MouseClean(i, s, io.sent))
    case OnKey(code, action, io) => o.keyboard && action.KeyUp? && code in i.keys && io.sent == 0 ==> AnotherCode(i.keys, code)
    case OnText(text, io) => o.keyboard ==> TextClean(i.keys, text, io.sent)
    case OnCommand(command, io) =>
      if command.ResetInput? then PenReleased(i, io) else o.gestures ==> ChordClean(i.keys, Chord(command), io.sent)
    case OnOptions(_) => true
    case OnReset(io) => PenReleased(i, io)
  }

  /** A reset lifts the recorded keys, in some order. */
  predicate Possible(i: Injector, c: Call) {
    match c
    case OnCommand(command, io) => command.ResetInput? ==> Lifts(i, io.ups)
    case OnReset(io) => Lifts(i, io.ups)
    case _ => true
  }

  // ----- single inputs -----

  lemma AfterOne(d: Desktop, n: Native)
    ensures After(d, [n]) == Felt(d, n)
  {
    assert [n][..0] == [];
    AfterNothing(d);
  }

  lemma KeyboardKeeps(m: Machine, code: Code, action: KeyAction, io: Io)
    requires OnRecord(m)
    requires m.o.keyboard && action.KeyUp? && code in m.i.keys && io.sent == 0 ==> AnotherCode(m.i.keys, code)
    ensures OnRecord(InjectKeyboard(m, code, action, io).0)
  {
    hide Physical, IsExtended, VirtualKey, Buttons;
    var m' := InjectKeyboard(m, code, action, io).0;
    if m' != m && m.o.keyboard && VirtualKey(code).Some? {
      var mapped := VirtualKey(code).value;
      AfterOne(m.d, KeyInput(mapped, false, IsExtended(mapped)));
      AfterOne(m.d, KeyInput(mapped, true, IsExtended(mapped)));
      AfterNothing(m.d);
      forall k | k in m'.d.keys ensures k in RecordedKeys(m'.i.keys) {
        if k in m.d.keys {
          var c :| c in m.i.keys && KeyOf(m.i.keys[c]) == k;
          if c in m'.i.keys {
            assert KeyOf(m'.i.keys[c]) == k;
          } else {
            var other :| other in m.i.keys && other != code && KeyOf(m.i.keys[other]) == KeyOf(m.i.keys[code]);
            assert other in m'.i.keys;
          }
        } else {
          assert KeyOf(m'.i.keys[code]) == k;
        }
      }
    }
  }

  // ----- inputs that are taken in part -----

  /** Whatever was down, inputs leave down what they leave down by themselves, and lift or keep the rest. */
  lemma {:induction false} AfterBetween(d: Desktop, inputs: seq<Native>)
    ensures var left, d' := After(IDLE, inputs), After(d, inputs);
      && left.keys <= d'.keys <= d.keys + left.keys
      && left.buttons <= d'.buttons <= d.buttons + left.buttons
      && d'.pens == d.pens && d'.touches == d.touches
  {
    hide Physical;
    if inputs != [] { AfterBetween(d, inputs[..|inputs| - 1]); }
  }

  /** What the inputs leave down by themselves is recorded. */
  predicate LeavesRecorded(i: Injector, inputs: seq<Native>) {
    After(IDLE, inputs).keys <= RecordedKeys(i.keys) && After(IDLE, inputs).buttons <= Buttons(i.mouse)
  }

  /** For every call of SendInput that records nothing, and however much of it Windows takes: the record
      stays right if and only if what the accepted inputs leave down is recorded. */
  lemma SendIff(m: Machine, inputs: seq<Native>, sent: nat)
    requires OnRecord(m)
    ensures OnRecord(SendInput(m, inputs, sent).0) <==> LeavesRecorded(m.i, Accepted(inputs, sent))
  {
    hide RecordedKeys, Mapped, Buttons, RecordedPens, After;
    AfterBetween(m.d, Accepted(inputs, sent));
  }

  // ----- mouse -----

  lemma MouseFelt(m: Machine, s: Contact)
    ensures var d' := After(m.d, MouseInputs(m.i, s));
      && d' == m.d.(buttons := d'.buttons)
      && forall b: nat :: b in d'.buttons <==> DownAfter(m.d.buttons, m.i.mouse, s.flags, BUTTONS, b)
  {
    hide ButtonChanges, HasButton, DownAfter;
    var moved: seq<Native> := if s.action.Cancel? then [] else [Passing];
    AfterMore(m.d, moved, ButtonChanges(m.i.mouse, s.flags, BUTTONS));
    AfterNothing(m.d);
    AfterOne(m.d, Passing);
    ChangesFelt(m.d, m.i.mouse, s.flags, BUTTONS);
  }

  /** After a mouse sample that was injected whole, the buttons held are among those it names. */
  lemma MouseFollowsFlags(m: Machine, s: Contact)
    requires m.d.buttons <= Buttons(m.i.mouse)
    ensures After(m.d, MouseInputs(m.i, s)).buttons <= Buttons(s.flags)
  {
    hide HasButton;
    MouseFelt(m, s);
  }

  /** The changes press buttons that were not recorded and lift ones that were. */
  lemma {:induction false} ChangesAre(previous: U16, current: U16, n: nat, x: Native)
    requires x in ButtonChanges(previous, current, n)
    ensures x.ButtonInput? && x.button < n && (x.up <==> HasButton(previous, x.button))
  {
    hide HasButton;
    if x !in ButtonChange(previous, current, n - 1) { ChangesAre(previous, current, n - 1, x); }
  }

  lemma MouseInputsAre(i: Injector, s: Contact, x: Native)
    requires x in MouseInputs(i, s)
    ensures x.Passing? || (x.ButtonInput? && x.button < BUTTONS && (x.up <==> HasButton(i.mouse, x.button)))
  {
    hide HasButton, ButtonChanges;
    if x in ButtonChanges(i.mouse, s.flags, BUTTONS) { ChangesAre(i.mouse, s.flags, BUTTONS, x); }
  }

  /** A button that is pressed and not lifted is down afterwards. */
  lemma {:induction false} PressedStays(d: Desktop, inputs: seq<Native>, b: nat)
    requires ButtonInput(b, false) in inputs && ButtonInput(b, true) !in inputs
    ensures b in After(d, inputs).buttons
  {
    var front, last := inputs[..|inputs| - 1], inputs[|inputs| - 1];
    assert last in inputs && forall n :: n in front ==> n in inputs;
    if last != ButtonInput(b, false) { PressedStays(d, front, b); }
  }

  /** A mouse sample cut short keeps the record right if and only if nothing was pressed before the cut. */
  lemma CutMouseIff(m: Machine, s: Contact, io: Io)
    requires OnRecord(m) && io.sent < |MouseInputs(m.i, s)|
    ensures OnRecord(InjectMouse(m, s, io).0) <==> MouseClean(m.i, s, io.sent)
  {
    hide HasButton, RecordedKeys, Mapped, MouseInputs, Buttons, After, OnRecord;
    var taken := MouseInputs(m.i, s)[..io.sent];
    SendIff(m, MouseInputs(m.i, s), io.sent);
    assert forall x :: x in taken ==> x in MouseInputs(m.i, s);
    if MouseClean(m.i, s, io.sent) {
      forall x | x in taken ensures x.Passing? || (x.ButtonInput? && x.up) { MouseInputsAre(m.i, s, x); }
      LiftsShrink(IDLE, taken);
    } else {
      var pressed :| pressed in taken && pressed.ButtonInput? && !pressed.up;
      var b := pressed.button;
      MouseInputsAre(m.i, s, pressed);
      if ButtonInput(b, true) in taken { MouseInputsAre(m.i, s, ButtonInput(b, true)); }
      PressedStays(IDLE, taken, b);
      assert b !in Buttons(m.i.mouse);
    }
  }

  lemma MouseKeeps(m: Machine, s: Contact, io: Io)
    requires OnRecord(m) && MouseClean(m.i, s, io.sent)
    ensures OnRecord(InjectMouse(m, s, io).0)
  {
    hide HasButton, RecordedKeys, RecordedPens, Mapped, MouseInputs, Buttons;
    if io.sent < |MouseInputs(m.i, s)| {
      CutMouseIff(m, s, io);
    } else {
      MouseFelt(m, s);
      MouseFollowsFlags(m, s);
      NoButtons();
    }
  }

  // ----- pen and touch -----

  lemma PenKeeps(m: Machine, s: Contact, io: Io)
    requires OnRecord(m)
    ensures OnRecord(InjectPen(m, s, io).0) <==> (OtherPenDown(m.i.pen, s.id) ==> io.releases)
  {
    hide RecordedKeys, Mapped, Buttons;
    var (m', ok) := InjectPen(m, s, io);
    var inContact := s.action.Down? || (s.action.Move? && m.i.pen.Some? && m.i.pen.value.id == s.id && m.i.pen.value.down);
    var frame := [Frame(Max(s.id, 1), inContact)];
    forall held ensures Contacts(held, frame) == if inContact then held + {Max(s.id, 1)} else held - {Max(s.id, 1)} {
      assert frame[..0] == [];
    }
  }

  lemma TouchKeeps(m: Machine, s: Contact, io: Io)
    requires OnRecord(m)
    ensures OnRecord(InjectTouch(m, s, io).0)
  {
    hide RecordedKeys, Mapped, Buttons, RecordedPens;
  }

  // ----- text and chords -----

  lemma NativesAppend(a: seq<TextTransfer.KeyEvent>, b: seq<TextTransfer.KeyEvent>)
    ensures Natives(a + b) == Natives(a) + Natives(b)
  {
  }

  lemma {:induction false} UnitsPass(d: Desktop, units: seq<U16>)
    ensures After(d, Natives(TextTransfer.UnitEvents(units))) == d
  {
    if units == [] {
      AfterNothing(d);
    } else {
      var first, rest := [TextTransfer.Unit(units[0], false), TextTransfer.Unit(units[0], true)], TextTransfer.UnitEvents(units[1..]);
      NativesAppend(first, rest);
      AfterMore(d, Natives(first), Natives(rest));
      assert Natives(first) == [Passing] + [Passing];
      AfterMore(d, [Passing], [Passing]);
      AfterOne(d, Passing);
      UnitsPass(d, units[1..]);
    }
  }

  lemma EnterFelt(d: Desktop)
    ensures After(d, Natives(TextTransfer.Enter())) == d.(keys := d.keys - {TextTransfer.RETURN})
  {
    var down, up := KeyInput(TextTransfer.RETURN, false, false), KeyInput(TextTransfer.RETURN, true, false);
    assert Natives(TextTransfer.Enter()) == [down] + [up];
    AfterMore(d, [down], [up]);
    AfterOne(d, down);
    AfterOne(Felt(d, down), up);
  }

  lemma CharacterFelt(d: Desktop, c: Scalar, afterReturn: bool)
    ensures var d' := After(d, Natives(TextTransfer.CharacterEvents(c, afterReturn)));
      d' == d.(keys := d'.keys) && d.keys - {TextTransfer.RETURN} <= d'.keys <= d.keys
  {
    hide TextTransfer.UnitEvents, TextTransfer.Enter;
    EnterFelt(d);
    AfterNothing(d);
    if c != CR && c != LF { UnitsPass(d, Utf16Char(c)); }
    if c == LF && afterReturn { assert Natives(TextTransfer.CharacterEvents(c, afterReturn)) == []; }
  }

  /** Typing a whole text lets go of Enter at most. */
  lemma {:induction false} TextFelt(d: Desktop, text: Text, afterReturn: bool)
    ensures var d' := After(d, Natives(TextTransfer.Events(text, afterReturn)));
      d' == d.(keys := d'.keys) && d.keys - {TextTransfer.RETURN} <= d'.keys <= d.keys
    decreases |text|
  {
    hide TextTransfer.CharacterEvents, After;
    if text == [] {
      AfterNothing(d);
      assert Natives([]) == [];
    } else {
      var first, rest := TextTransfer.CharacterEvents(text[0], afterReturn), TextTransfer.Events(text[1..], text[0] == CR);
      NativesAppend(first, rest);
      AfterMore(d, Natives(first), Natives(rest));
      CharacterFelt(d, text[0], afterReturn);
      TextFelt(After(d, Natives(first)), text[1..], text[0] == CR);
    }
  }

  function ChordKeys(keys: seq<(U16, bool)>): set<U16> { set k | k in keys :: Physical(k.0, k.1) }

  lemma ChordKeysFirst(keys: seq<(U16, bool)>)
    requires keys != []
    ensures ChordKeys(keys) == ChordKeys(keys[1..]) + {Physical(keys[0].0, keys[0].1)}
  {
    hide Physical;
    assert forall k :: k in keys <==> k == keys[0] || k in keys[1..];
  }

  /** A whole chord leaves its own keys up and the others as they were. */
  lemma {:induction false} ChordFelt(d: Desktop, keys: seq<(U16, bool)>)
    ensures After(d, ChordInputs(keys)) == d.(keys := d.keys - ChordKeys(keys))
    decreases |keys|
  {
    hide Physical, After;
    if keys == [] {
      AfterNothing(d);
      assert d.keys - ChordKeys(keys) == d.keys;
    } else {
      hide ChordKeys;
      var down, up := KeyInput(keys[0].0, false, keys[0].1), KeyInput(keys[0].0, true, keys[0].1);
      var inner := ChordInputs(keys[1..]);
      AfterMore(d, [down] + inner, [up]);
      AfterMore(d, [down], inner);
      AfterOne(d, down);
      ChordFelt(Felt(d, down), keys[1..]);
      AfterOne(After(Felt(d, down), inner), up);
      ChordKeysFirst(keys);
    }
  }

  // ----- text and chords cut short -----

  /** Key events of a text: units, and Enter going down and at once up again. */
  ghost predicate Paired(inputs: seq<Native>) {
    && (forall i :: 0 <= i < |inputs| ==> inputs[i].Passing? || inputs[i] == RETURN_DOWN || inputs[i] == RETURN_UP)
    && (forall i, j :: 0 <= i && j == i + 1 && j < |inputs| && inputs[i] == RETURN_DOWN ==> inputs[j] == RETURN_UP)
  }

  predicate EndsDown(inputs: seq<Native>) { inputs != [] && inputs[|inputs| - 1] == RETURN_DOWN }

  lemma PairedAppend(a: seq<Native>, b: seq<Native>)
    requires Paired(a) && Paired(b) && !EndsDown(a)
    ensures Paired(a + b) && (EndsDown(a + b) <==> EndsDown(b))
  {
  }

  lemma {:induction false} UnitsArePaired(units: seq<U16>)
    ensures var inputs := Natives(TextTransfer.UnitEvents(units)); Paired(inputs) && !EndsDown(inputs)
  {
    if units != [] {
      var first, rest := [TextTransfer.Unit(units[0], false), TextTransfer.Unit(units[0], true)], TextTransfer.UnitEvents(units[1..]);
      UnitsArePaired(units[1..]);
      NativesAppend(first, rest);
      PairedAppend(Natives(first), Natives(rest));
    }
  }

  lemma CharacterIsPaired(c: Scalar, afterReturn: bool)
    ensures var inputs := Natives(TextTransfer.CharacterEvents(c, afterReturn)); Paired(inputs) && !EndsDown(inputs)
  {
    hide TextTransfer.UnitEvents;
    if c != CR && c != LF { UnitsArePaired(Utf16Char(c)); }
  }

  lemma {:induction false} TextIsPaired(text: Text, afterReturn: bool)
    ensures var inputs := Natives(TextTransfer.Events(text, afterReturn)); Paired(inputs) && !EndsDown(inputs)
    decreases |text|
  {
    hide TextTransfer.CharacterEvents;
    if text != [] {
      var first, rest := TextTransfer.CharacterEvents(text[0], afterReturn), TextTransfer.Events(text[1..], text[0] == CR);
      CharacterIsPaired(text[0], afterReturn);
      TextIsPaired(text[1..], text[0] == CR);
      NativesAppend(first, rest);
      hide Paired, EndsDown;
      PairedAppend(Natives(first), Natives(rest));
    }
  }

  /** A beginning of such events leaves Enter down if it ends just after Enter went down, and nothing else. */
  lemma {:induction false} PairedLeaves(inputs: seq<Native>, n: nat)
    requires Paired(inputs) && n <= |inputs|
    ensures After(IDLE, inputs[..n]) ==
      IDLE.(keys := if EndsDown(inputs[..n]) then {Physical(TextTransfer.RETURN, false)} else {})
  {
    hide Physical;
    if n > 0 {
      PairedLeaves(inputs, n - 1);
      assert inputs[..n][..n - 1] == inputs[..n - 1];
    }
  }

  /** However much of a text Windows takes: the record stays right if and only if the cut does not come just
      after Enter went down, or Enter is recorded. */
  lemma TextIff(m: Machine, text: Text, io: Io)
    requires OnRecord(m) && m.o.keyboard
    ensures OnRecord(InjectText(m, text, io).0) <==> TextClean(m.i.keys, text, io.sent)
  {
    hide OnRecord, Physical, RecordedKeys, Buttons, After, Paired;
    var inputs := Natives(TextTransfer.Events(text, false));
    TextIsPaired(text, false);
    SendIff(m, inputs, io.sent);
    assert inputs[..|inputs|] == inputs;
    PairedLeaves(inputs, |Accepted(inputs, io.sent)|);
  }

  /** The keys of a chord are different keys. */
  predicate Distinct(keys: seq<(U16, bool)>) {
    forall i, j :: 0 <= i < j < |keys| ==> Physical(keys[i].0, keys[i].1) != Physical(keys[j].0, keys[j].1)
  }

  lemma FirstOfChord(keys: seq<(U16, bool)>, n: nat)
    requires Distinct(keys) && 0 < n <= |keys|
    ensures ChordKeys(keys[..n]) == {Physical(keys[0].0, keys[0].1)} + ChordKeys(keys[1..][..n - 1])
    ensures Distinct(keys[1..]) && Physical(keys[0].0, keys[0].1) !in ChordKeys(keys[1..])
  {
    hide Physical;
    assert keys[..n] == [keys[0]] + keys[1..][..n - 1];
    forall k | k in keys[1..] ensures Physical(k.0, k.1) != Physical(keys[0].0, keys[0].1) {
      var j :| 0 <= j < |keys[1..]| && keys[1..][j] == k;
      assert keys[j + 1] == k;
    }
  }

  lemma NoChordKeys()
    ensures ChordKeys([]) == {}
  {
  }

  /** A chord cut short leaves the keys down that have not come up again. */
  lemma {:induction false} ChordLeaves(d: Desktop, keys: seq<(U16, bool)>, n: nat)
    requires Distinct(keys) && n <= 2 * |keys| && d.keys !! ChordKeys(keys)
    ensures After(d, ChordInputs(keys)[..n]) == d.(keys := d.keys + ChordKeys(keys[..StillDown(|keys|, n)]))
    decreases |keys|
  {
    hide Physical, Distinct, After, ChordKeys;
    NoChordKeys();
    if n == 0 {
      AfterNothing(d);
      assert d.keys + {} == d.keys;
    } else {
      var down, p := KeyInput(keys[0].0, false, keys[0].1), Physical(keys[0].0, keys[0].1);
      var inner := ChordInputs(keys[1..]);
      FirstOfChord(keys, |keys|);
      assert keys[..|keys|] == keys && keys[1..][..|keys| - 1] == keys[1..];
      if n == 2 * |keys| {
        ChordFelt(d, keys);
        assert ChordInputs(keys)[..n] == ChordInputs(keys);
        assert d.keys - ChordKeys(keys) == d.keys + {};
      } else {
        assert ChordInputs(keys)[..n] == [down] + inner[..n - 1];
        AfterMore(d, [down], inner[..n - 1]);
        AfterOne(d, down);
        ChordLeaves(Felt(d, down), keys[1..], n - 1);
        assert StillDown(|keys|, n) == 1 + StillDown(|keys| - 1, n - 1);
        FirstOfChord(keys, StillDown(|keys|, n));
      }
    }
  }

  lemma ChordsAreDistinct(c: Command)
    ensures Distinct(Chord(c))
  {
  }

  /** However much of a chord Windows takes: the record stays right if and only if every key that went down
      has come up again or is recorded. */
  lemma ChordIff(m: Machine, c: Command, io: Io)
    requires OnRecord(m)
    ensures OnRecord(SendInput(m, ChordInputs(Chord(c)), io.sent).0) <==> ChordClean(m.i.keys, Chord(c), io.sent)
  {
    hide OnRecord, Physical, RecordedKeys, Buttons, After, Distinct, ChordInputs, Chord;
    var inputs, n := ChordInputs(Chord(c)), |Chord(c)|;
    ChordsAreDistinct(c);
    SendIff(m, inputs, io.sent);
    var taken := |Accepted(inputs, io.sent)|;
    assert inputs[..taken] == Accepted(inputs, io.sent);
    ChordLeaves(IDLE, Chord(c), taken);
    assert StillDown(n, taken) == StillDown(n, io.sent);
    assert {} + ChordKeys(Chord(c)[..StillDown(n, taken)]) == ChordKeys(Chord(c)[..StillDown(n, taken)]);
  }

  // ----- reset -----

  predicate OnlyLifts(inputs: seq<Native>) {
    forall n :: n in inputs ==> (n.KeyInput? && n.up) || (n.ButtonInput? && n.up) || n.Passing?
  }

  lemma {:induction false} LiftsShrink(d: Desktop, inputs: seq<Native>)
    requires OnlyLifts(inputs)
    ensures var d' := After(d, inputs);
      d'.keys <= d.keys && d'.buttons <= d.buttons && d'.pens == d.pens && d'.touches == d.touches
  {
    if inputs != [] {
      LiftsShrink(d, inputs[..|inputs| - 1]);
      assert inputs[|inputs| - 1] in inputs;
    }
  }

  lemma {:induction false} ReleasingLifts(previous: U16, n: nat)
    ensures OnlyLifts(ButtonChanges(previous, 0, n))
  {
    hide HasButton;
    if n > 0 {
      ReleasingLifts(previous, n - 1);
      ZeroHasNone(n - 1);
    }
  }

  /** All recorded keys and buttons let go. */
  lemma RemoteStateReleased(m: Machine, ups: seq<Native>)
    requires OnRecord(m) && Lifts(m.i, ups)
    ensures After(m.d, ButtonChanges(m.i.mouse, 0, BUTTONS) + ups) == m.d.(keys := {}, buttons := {})
  {
    hide After, ButtonChanges, Lifts, AllUps, Lifted, OnRecord;
    var changes := ButtonChanges(m.i.mouse, 0, BUTTONS);
    AfterMore(m.d, changes, ups);
    ButtonsReleased(m);
    KeysReleased(m, ups);
    UpsFelt(m.d.(buttons := {}), ups);
  }

  lemma ButtonsReleased(m: Machine)
    requires OnRecord(m)
    ensures After(m.d, ButtonChanges(m.i.mouse, 0, BUTTONS)) == m.d.(buttons := {})
  {
    hide HasButton, After, ButtonChanges, Mapped, RecordedKeys, RecordedPens;
    ChangesFelt(m.d, m.i.mouse, 0, BUTTONS);
    var held := After(m.d, ButtonChanges(m.i.mouse, 0, BUTTONS)).buttons;
    forall b | b in held ensures false { ZeroHasNone(b); }
    assert held == {};
  }

  lemma KeysReleased(m: Machine, ups: seq<Native>)
    requires OnRecord(m) && Lifts(m.i, ups)
    ensures AllUps(ups) && m.d.keys - Lifted(ups) == {}
  {
    hide Lifts, Lifted, AllUps, KeyOf, Buttons, RecordedPens, Mapped;
    LiftsAreUps(m.i, ups);
    forall k | k in m.d.keys ensures k in Lifted(ups) {
      var code :| code in m.i.keys && KeyOf(m.i.keys[code]) == k;
      OneKeyLifted(m.i, ups, code);
    }
  }

  lemma LiftsAreUps(i: Injector, ups: seq<Native>)
    requires Lifts(i, ups)
    ensures AllUps(ups)
  {
  }

  lemma OneKeyLifted(i: Injector, ups: seq<Native>, code: Code)
    requires Lifts(i, ups) && code in i.keys
    ensures KeyOf(i.keys[code]) in Lifted(ups)
  {
    hide Physical, IsExtended;
    assert Keystroke(i.keys[code], true) in ups;
  }

  lemma RemoteStateKeeps(m: Machine, io: Io)
    requires OnRecord(m) && Lifts(m.i, io.ups)
    ensures OnRecord(ReleaseRemoteState(m, io).0)
    ensures ReleaseRemoteState(m, io).1 ==> ReleaseRemoteState(m, io).0.d == m.d.(keys := {}, buttons := {})
  {
    hide RecordedPens, RecordedKeys, Mapped, Buttons, Lifts;
    var inputs := ButtonChanges(m.i.mouse, 0, BUTTONS) + io.ups;
    RemoteStateReleased(m, io.ups);
    NoButtons();
    assert Mapped(map[]) by { NothingMapped(); }
    if |inputs| > io.sent {
      ReleasingLifts(m.i.mouse, BUTTONS);
      LiftedKeys(m.i, io.ups);
      assert OnlyLifts(inputs[..io.sent]) by { PrefixLifts(inputs, io.sent); }
      LiftsShrink(m.d, inputs[..io.sent]);
    }
  }

  lemma NothingMapped()
    ensures Mapped(map[])
  {
  }

  lemma LiftedKeys(i: Injector, ups: seq<Native>)
    requires Lifts(i, ups)
    ensures OnlyLifts(ups)
  {
  }

  lemma PrefixLifts(inputs: seq<Native>, n: nat)
    requires n <= |inputs| && OnlyLifts(inputs)
    ensures OnlyLifts(inputs[..n])
  {
  }

  lemma ReleasePenKeeps(m: Machine, works: bool)
    requires OnRecord(m) && (m.i.pen.Some? && m.i.pen.value.down ==> works)
    ensures var (m', ok) := ReleasePen(m, works); OnRecord(m') && ok && m'.d == m.d.(pens := {}) && m'.i == m.i.(pen := None)
  {
    hide RecordedKeys, Mapped, Buttons;
  }

  lemma ReleaseTouchesKeeps(m: Machine, works: bool)
    requires OnRecord(m)
    ensures var (m', ok) := ReleaseTouches(m, works);
      OnRecord(m') && m'.i == m.i.(touches := m'.i.touches) && (ok ==> m'.d == m.d.(touches := {}))
  {
    hide RecordedKeys, Mapped, Buttons, RecordedPens;
  }

  lemma ResetKeeps(m: Machine, io: Io)
    requires OnRecord(m) && PenReleased(m.i, io) && Lifts(m.i, io.ups)
    ensures OnRecord(ResetAll(m, io).0)
    ensures ResetAll(m, io).1 ==> ResetAll(m, io).0.d == IDLE
  {
    hide OnRecord, Lifts, ReleaseRemoteState, ReleasePen, ReleaseTouches;
    ReleasePenKeeps(m, io.releases);
    var m1 := ReleasePen(m, io.releases).0;
    ReleaseTouchesKeeps(m1, io.works);
    var (m2, ok2) := ReleaseTouches(m1, io.works);
    if ok2 {
      SameKeysLift(m.i, m2.i, io.ups);
      RemoteStateKeeps(m2, io);
    }
  }

  lemma SameKeysLift(i: Injector, i': Injector, ups: seq<Native>)
    requires Lifts(i, ups) && i'.keys == i.keys
    ensures Lifts(i', ups)
  {
  }

  // ----- every run -----

  lemma StepKeeps(m: Machine, c: Call)
    requires OnRecord(m) && Clean(m.i, m.o, c) && Possible(m.i, c)
    ensures OnRecord(Apply(m, c).0)
  {
    hide OnRecord, InjectPen, InjectTouch, InjectMouse, InjectKeyboard, InjectText, ResetAll, SendInput, Lifts;
    hide MouseClean, TextClean, ChordClean, AnotherCode;
    match c
    case OnSample(s, io) =>
      match s.device {
        case Pen => if m.o.pen { PenKeeps(m, s, io); }
        case Touch => TouchKeeps(m, s, io);
        case Mouse => if m.o.mouse { MouseKeeps(m, s, io); }
      }
    case OnKey(code, action, io) => KeyboardKeeps(m, code, action, io);
    case OnText(text, io) => if m.o.keyboard { TextIff(m, text, io); } else { NoText(m, text, io); }
    case OnCommand(command, io) =>
      if command.ResetInput? { ResetKeeps(m, io); } else { ChordIff(m, command, io); }
    case OnOptions(options) => OptionsKeep(m, options);
    case OnReset(io) => ResetKeeps(m, io);
  }

  lemma NoText(m: Machine, text: Text, io: Io)
    requires !m.o.keyboard
    ensures InjectText(m, text, io).0 == m
  {
  }

  lemma OptionsKeep(m: Machine, options: Options)
    requires OnRecord(m)
    ensures OnRecord(m.(o := options))
  {
  }

  function Run(m: Machine, calls: seq<Call>): Machine
    decreases |calls|
  {
    if calls == [] then m else Run(Apply(m, calls[0]).0, calls[1..])
  }

  predicate CleanRun(m: Machine, calls: seq<Call>)
    decreases |calls|
  {
    calls == [] || (Clean(m.i, m.o, calls[0]) && Possible(m.i, calls[0]) && CleanRun(Apply(m, calls[0]).0, calls[1..]))
  }

  lemma {:induction false} RunKeeps(m: Machine, calls: seq<Call>)
    requires OnRecord(m) && CleanRun(m, calls)
    ensures OnRecord(Run(m, calls))
    decreases |calls|
  {
    hide OnRecord, Clean, Possible, Apply;
    if calls != [] {
      StepKeeps(m, calls[0]);
      RunKeeps(Apply(m, calls[0]).0, calls[1..]);
    }
  }

  function Start(o: Options): Machine { Machine(Injector(None, {}, 0, map[]), IDLE, o) }

  /** After every clean run, what Windows holds is on the record, and a reset that succeeds leaves Windows
      holding no key, no button, no pen and no touch. */
  lemma EveryRunCanBeReset(o: Options, calls: seq<Call>, io: Io)
    requires CleanRun(Start(o), calls)
    ensures OnRecord(Run(Start(o), calls))
    ensures var m := Run(Start(o), calls);
      Lifts(m.i, io.ups) && PenReleased(m.i, io) && ResetAll(m, io).1 ==> ResetAll(m, io).0.d == IDLE
  {
    hide OnRecord, Lifts, PenReleased, ResetAll, CleanRun, Run;
    assert OnRecord(Start(o)) by { StartOnRecord(o); }
    RunKeeps(Start(o), calls);
    var m := Run(Start(o), calls);
    if Lifts(m.i, io.ups) && PenReleased(m.i, io) { ResetKeeps(m, io); }
  }

  lemma StartOnRecord(o: Options)
    ensures OnRecord(Start(o))
  {
  }

  // ----- what a call that succeeds does -----

  /** A key that goes down is held, a key that comes up is not, and no other key changes. */
  lemma KeysTakeEffect(m: Machine, code: Code, action: KeyAction, io: Io)
    requires m.o.keyboard && Mapped(m.i.keys) && InjectKeyboard(m, code, action, io).1
    ensures VirtualKey(code).Some?
    ensures var key, m' := KeyOf(VirtualKey(code).value), InjectKeyboard(m, code, action, io).0;
      && m'.d == m.d.(keys := if action.KeyDown? then m.d.keys + {key} else m.d.keys - {key})
      && (code in m'.i.keys <==> action.KeyDown?)
  {
    hide Physical, IsExtended, VirtualKey;
    var mapped := VirtualKey(code).value;
    AfterOne(m.d, KeyInput(mapped, false, IsExtended(mapped)));
    AfterOne(m.d, KeyInput(mapped, true, IsExtended(mapped)));
  }

  /** With the record exact, the buttons held after a mouse sample are exactly those it names, and the
      record is exact again if the sample does not end a stroke. */
  lemma ButtonsTakeEffect(m: Machine, s: Contact, io: Io)
    requires m.d.buttons == Buttons(m.i.mouse) && InjectMouse(m, s, io).1
    ensures var m' := InjectMouse(m, s, io).0;
      && m'.d == m.d.(buttons := Buttons(s.flags))
      && (!s.action.IsTerminal() ==> m'.d.buttons == Buttons(m'.i.mouse))
  {
    hide HasButton, MouseInputs;
    MouseFelt(m, s);
    assert After(m.d, MouseInputs(m.i, s)).buttons == Buttons(s.flags);
  }

  /** A pen is in contact from a down, through moves, until anything else; at most one pen ever is. */
  lemma PenTakesEffect(m: Machine, s: Contact, io: Io)
    requires OnRecord(m) && InjectPen(m, s, io).1
    ensures var contact := s.action.Down? || (s.action.Move? && m.i.pen == Some(PenState(s.id, true)));
      InjectPen(m, s, io).0.d == m.d.(pens := if contact then {Max(s.id, 1)} else {})
  {
    hide RecordedKeys, Mapped, Buttons;
    var held := if m.i.pen.Some? && m.i.pen.value.id != s.id then m.d.pens - {Max(m.i.pen.value.id, 1)} else m.d.pens;
    var inContact := s.action.Down? || (s.action.Move? && m.i.pen == Some(PenState(s.id, true)));
    var frame := [Frame(Max(s.id, 1), inContact)];
    forall h ensures Contacts(h, frame) == if inContact then h + {Max(s.id, 1)} else h - {Max(s.id, 1)} {
      assert frame[..0] == [];
    }
  }

  /** After a touch sample other than a hover, the touches held are exactly those on record: the new one
      and the old ones, or the old ones without the one that ends. */
  lemma TouchTakesEffect(m: Machine, s: Contact, io: Io)
    requires m.d.touches <= m.i.touches && !s.action.Hover? && InjectTouch(m, s, io).1
    ensures var m' := InjectTouch(m, s, io).0;
      && m'.d == m.d.(touches := m'.i.touches)
      && m'.i.touches == if s.action.IsTerminal() then m.i.touches - {Max(s.id, 1)} else m.i.touches + {Max(s.id, 1)}
  {
  }

  // ----- where the record is lost -----

  /** A mouse sample that ends a stroke, injected whole with the record exact, leaves the record right if
      and only if it names none of the five buttons: it presses what it names and records nothing. */
  lemma TerminalMouseIff(m: Machine, s: Contact, io: Io)
    requires OnRecord(m) && m.d.buttons == Buttons(m.i.mouse) && |MouseInputs(m.i, s)| <= io.sent && s.action.IsTerminal()
    ensures OnRecord(InjectMouse(m, s, io).0) <==> Buttons(s.flags) == {}
    ensures InjectMouse(m, s, io).0.d.buttons == Buttons(s.flags)
  {
    hide HasButton, RecordedKeys, RecordedPens, Mapped, MouseInputs;
    MouseFelt(m, s);
    NoButtons();
    var held := After(m.d, MouseInputs(m.i, s)).buttons;
    assert held == Buttons(s.flags);
  }

  /** A release of a key that Windows refuses, in a state where the recorded keys are held, leaves the record
      right if and only if another recorded code stands for the key. */
  lemma FailedKeyUpIff(m: Machine, code: Code, io: Io)
    requires OnRecord(m) && m.d.keys == RecordedKeys(m.i.keys) && m.o.keyboard && code in m.i.keys && io.sent == 0
    ensures OnRecord(InjectKeyboard(m, code, KeyUp, io).0) <==> AnotherCode(m.i.keys, code)
  {
    hide Physical, IsExtended, VirtualKey, Buttons;
    var m' := InjectKeyboard(m, code, KeyUp, io).0;
    var key := KeyOf(m.i.keys[code]);
    AfterNothing(m.d);
    assert m'.d == m.d && m'.i == m.i.(keys := m.i.keys - {code});
    assert key in m.d.keys;
    if OnRecord(m') {
      var c :| c in m'.i.keys && KeyOf(m'.i.keys[c]) == key;
      assert c in m.i.keys && c != code;
    }
    if AnotherCode(m.i.keys, code) { KeyboardKeeps(m, code, KeyUp, io); }
  }

  /** A release of a recorded pen that Windows refuses leaves the record right if and only if the pen is not
      recorded in contact. */
  lemma FailedPenReleaseIff(m: Machine)
    requires OnRecord(m) && m.i.pen.Some?
    ensures OnRecord(ReleasePen(m, false).0) <==> !m.i.pen.value.down
  {
    hide RecordedKeys, Mapped, Buttons;
  }

  /** Everything recorded is held. */
  predicate Exact(m: Machine) {
    OnRecord(m) && m.d.keys == RecordedKeys(m.i.keys) && m.d.buttons == Buttons(m.i.mouse)
  }

  lemma MouseIff(m: Machine, s: Contact, io: Io)
    requires Exact(m)
    ensures OnRecord(InjectMouse(m, s, io).0) <==> MouseClean(m.i, s, io.sent)
  {
    hide HasButton, RecordedKeys, RecordedPens, Mapped, MouseInputs, Buttons;
    if io.sent < |MouseInputs(m.i, s)| {
      CutMouseIff(m, s, io);
    } else if s.action.IsTerminal() {
      TerminalMouseIff(m, s, io);
    } else {
      MouseKeeps(m, s, io);
    }
  }

  lemma KeyIff(m: Machine, code: Code, action: KeyAction, io: Io)
    requires Exact(m)
    ensures OnRecord(InjectKeyboard(m, code, action, io).0) <==>
      (m.o.keyboard && action.KeyUp? && code in m.i.keys && io.sent == 0 ==> AnotherCode(m.i.keys, code))
  {
    hide OnRecord, InjectKeyboard, RecordedKeys, AnotherCode;
    if m.o.keyboard && action.KeyUp? && code in m.i.keys && io.sent == 0 {
      FailedKeyUpIff(m, code, io);
    } else {
      KeyboardKeeps(m, code, action, io);
    }
  }

  lemma ResetIff(m: Machine, io: Io)
    requires OnRecord(m) && Lifts(m.i, io.ups)
    ensures OnRecord(ResetAll(m, io).0) <==> PenReleased(m.i, io)
  {
    hide OnRecord, Lifts, ReleaseTouches, ReleaseRemoteState;
    if PenReleased(m.i, io) { ResetKeeps(m, io); } else { FailedPenReleaseIff(m); }
  }

  lemma NoChord(keys: map<Code, U16>, sent: nat)
    ensures ChordClean(keys, Chord(MinimizeForeground), sent)
  {
  }

  /** Where everything recorded is held, the condition of the run theorem is exact for every call: the record
      stays right if and only if the call is clean. */
  lemma CleanIff(m: Machine, c: Call)
    requires Exact(m) && Possible(m.i, c)
    ensures OnRecord(Apply(m, c).0) <==> Clean(m.i, m.o, c)
  {
    hide OnRecord, InjectPen, InjectTouch, InjectMouse, InjectKeyboard, InjectText, ResetAll, SendInput, Lifts;
    hide MouseClean, TextClean, ChordClean, AnotherCode, RecordedKeys, Buttons, PenReleased;
    match c
    case OnSample(s, io) =>
      match s.device {
        case Pen => if m.o.pen { PenKeeps(m, s, io); }
        case Touch => TouchKeeps(m, s, io);
        case Mouse => if m.o.mouse { MouseIff(m, s, io); }
      }
    case OnKey(code, action, io) => KeyIff(m, code, action, io);
    case OnText(text, io) => if m.o.keyboard { TextIff(m, text, io); } else { NoText(m, text, io); }
    case OnCommand(command, io) =>
      if command.ResetInput? {
        ResetIff(m, io);
      } else if command.MinimizeForeground? {
        NoChord(m.i.keys, io.sent);
      } else {
        ChordIff(m, command, io);
      }
    case OnOptions(options) => OptionsKeep(m, options);
    case OnReset(io) => ResetIff(m, io);
  }

  // ----- where everything recorded is held -----

  /** No other recorded code stands for the key of this one. */
  predicate StandsAlone(keys: map<Code, U16>, code: Code) {
    VirtualKey(code).Some? ==> forall c :: c in keys && c != code ==> KeyOf(keys[c]) != KeyOf(VirtualKey(code).value)
  }

  /** The call lifts no key that stays recorded: no key of another recorded code, no recorded Enter by typing,
      no recorded key by a chord. */
  predicate LiftsNothingRecorded(i: Injector, c: Call) {
    match c
    case OnKey(code, action, io) => action.KeyUp? ==> StandsAlone(i.keys, code)
    case OnText(_, _) => TextTransfer.RETURN !in RecordedKeys(i.keys)
    case OnCommand(command, _) => ChordKeys(Chord(command)) !! RecordedKeys(i.keys)
    case _ => true
  }

  lemma KeyStaysExact(m: Machine, code: Code, action: KeyAction, io: Io)
    requires Exact(m) && InjectKeyboard(m, code, action, io).1 && (action.KeyUp? ==> StandsAlone(m.i.keys, code))
    ensures Exact(InjectKeyboard(m, code, action, io).0)
  {
    hide Physical, IsExtended, VirtualKey, Buttons;
    var m' := InjectKeyboard(m, code, action, io).0;
    if m.o.keyboard {
      KeyAccepted(m, code, io);
      KeyboardKeeps(m, code, action, io);
      KeysTakeEffect(m, code, action, io);
      forall k | k in RecordedKeys(m'.i.keys) ensures k in m'.d.keys {
        var c :| c in m'.i.keys && KeyOf(m'.i.keys[c]) == k;
      }
    }
  }

  lemma KeyAccepted(m: Machine, code: Code, io: Io)
    requires m.o.keyboard && InjectKeyboard(m, code, KeyUp, io).1
    ensures io.sent >= 1
  {
  }

  lemma MouseStaysExact(m: Machine, s: Contact, io: Io)
    requires Exact(m) && InjectMouse(m, s, io).1 && MouseClean(m.i, s, io.sent)
    ensures Exact(InjectMouse(m, s, io).0)
  {
    hide HasButton, RecordedKeys, RecordedPens, Mapped, MouseInputs, Buttons;
    MouseKeeps(m, s, io);
    ButtonsTakeEffect(m, s, io);
    NoButtons();
  }

  lemma TextStaysExact(m: Machine, text: Text, io: Io)
    requires Exact(m) && InjectText(m, text, io).1 && TextTransfer.RETURN !in RecordedKeys(m.i.keys)
    ensures Exact(InjectText(m, text, io).0)
  {
    hide RecordedKeys, RecordedPens, Mapped, Buttons, After;
    TextFelt(m.d, text, false);
    assert m.d.keys - {TextTransfer.RETURN} == m.d.keys;
  }

  lemma ChordStaysExact(m: Machine, c: Command, io: Io)
    requires Exact(m) && SendInput(m, ChordInputs(Chord(c)), io.sent).1
    requires ChordKeys(Chord(c)) !! RecordedKeys(m.i.keys)
    ensures Exact(SendInput(m, ChordInputs(Chord(c)), io.sent).0)
  {
    hide RecordedKeys, RecordedPens, Mapped, Buttons, After, Chord;
    ChordFelt(m.d, Chord(c));
    assert m.d.keys - ChordKeys(Chord(c)) == m.d.keys;
  }

  lemma ResetIsExact(m: Machine, io: Io)
    requires Exact(m) && Lifts(m.i, io.ups) && PenReleased(m.i, io) && ResetAll(m, io).1
    ensures Exact(ResetAll(m, io).0)
  {
    hide Lifts, RecordedPens, Mapped, Buttons, After;
    ResetKeeps(m, io);
    NoButtons();
  }

  lemma PenStaysExact(m: Machine, s: Contact, io: Io)
    requires Exact(m) && (OtherPenDown(m.i.pen, s.id) ==> io.releases)
    ensures Exact(InjectPen(m, s, io).0)
  {
    hide RecordedKeys, RecordedPens, Mapped, Buttons;
    PenKeeps(m, s, io);
  }

  lemma TouchStaysExact(m: Machine, s: Contact, io: Io)
    requires Exact(m)
    ensures Exact(InjectTouch(m, s, io).0)
  {
    hide RecordedKeys, RecordedPens, Mapped, Buttons;
    TouchKeeps(m, s, io);
  }

  /** A clean call that succeeds and lifts nothing recorded leaves everything recorded held. */
  lemma StepStaysExact(m: Machine, c: Call)
    requires Exact(m) && Clean(m.i, m.o, c) && Possible(m.i, c) && Apply(m, c).1 && LiftsNothingRecorded(m.i, c)
    ensures Exact(Apply(m, c).0)
  {
    hide Exact, InjectPen, InjectTouch, InjectMouse, InjectKeyboard, InjectText, ResetAll, SendInput, Lifts;
    hide MouseClean, TextClean, ChordClean, AnotherCode, RecordedKeys, Buttons, PenReleased, StandsAlone;
    match c
    case OnSample(s, io) =>
      match s.device {
        case Pen => if m.o.pen { PenStaysExact(m, s, io); }
        case Touch => TouchStaysExact(m, s, io);
        case Mouse => if m.o.mouse { MouseStaysExact(m, s, io); }
      }
    case OnKey(code, action, io) => KeyStaysExact(m, code, action, io);
    case OnText(text, io) => TextStaysExact(m, text, io);
    case OnCommand(command, io) =>
      if command.ResetInput? {
        ResetIsExact(m, io);
      } else if !command.MinimizeForeground? && m.o.gestures {
        ChordStaysExact(m, command, io);
      }
    case OnOptions(options) => OptionsStayExact(m, options);
    case OnReset(io) => ResetIsExact(m, io);
  }

  lemma OptionsStayExact(m: Machine, options: Options)
    requires Exact(m)
    ensures Exact(m.(o := options))
  {
  }

  predicate QuietRun(m: Machine, calls: seq<Call>)
    decreases |calls|
  {
    calls == [] ||
    (&& Clean(m.i, m.o, calls[0]) && Possible(m.i, calls[0]) && Apply(m, calls[0]).1 && LiftsNothingRecorded(m.i, calls[0])
     && QuietRun(Apply(m, calls[0]).0, calls[1..]))
  }

  lemma {:induction false} RunStaysExact(m: Machine, calls: seq<Call>)
    requires Exact(m) && QuietRun(m, calls)
    ensures Exact(Run(m, calls))
    decreases |calls|
  {
    hide Exact, Clean, Possible, Apply, LiftsNothingRecorded;
    if calls != [] {
      StepStaysExact(m, calls[0]);
      RunStaysExact(Apply(m, calls[0]).0, calls[1..]);
    }
  }

  lemma StartIsExact(o: Options)
    ensures Exact(Start(o))
  {
    NoButtons();
    NoKeys();
    StartOnRecord(o);
  }

  /** After every run of such calls everything recorded is held. */
  lemma EveryQuietRunIsExact(o: Options, calls: seq<Call>)
    requires QuietRun(Start(o), calls)
    ensures Exact(Run(Start(o), calls))
  {
    hide Exact, QuietRun, Run;
    StartIsExact(o);
    RunStaysExact(Start(o), calls);
  }

  // ----- how something stays down -----

  const NOTHING := Injector(None, {}, 0, map[])

  lemma {:induction false} NoChanges(flags: U16, n: nat)
    ensures ButtonChanges(flags, flags, n) == []
  {
    hide HasButton;
    if n > 0 { NoChanges(flags, n - 1); }
  }

  lemma NoUps(ups: seq<Native>)
    requires Lifts(NOTHING, ups)
    ensures ups == []
  {
    FirstIsIn(ups);
  }

  lemma FirstIsIn(ups: seq<Native>)
    ensures ups != [] ==> exists n :: n in ups
  {
    if ups != [] { assert ups[0] in ups; }
  }

  lemma RunTwo(m: Machine, a: Call, b: Call)
    ensures Run(m, [a, b]) == Apply(Apply(m, a).0, b).0
  {
    hide Apply;
    assert [a, b][1..] == [b] && [b][1..] == [];
    assert Run(Apply(m, a).0, [b]) == Run(Apply(Apply(m, a).0, b).0, []);
  }

  /** With nothing on record a reset lifts nothing, whatever is held. */
  lemma ResetLiftsNothing(m: Machine, io: Io)
    requires m.i == NOTHING && Lifts(m.i, io.ups)
    ensures ResetAll(m, io) == (m, true)
  {
    hide ButtonChanges;
    NoChanges(0, BUTTONS);
    NoUps(io.ups);
    assert ButtonChanges(0, 0, BUTTONS) + io.ups == [];
    AfterNothing(m.d);
  }

  /** Of the chord for the next application Windows takes one input: Alt stays down. */
  lemma ACutChordIsLost(o: Options, io: Io)
    requires o.gestures && io.sent == 1
    ensures var m := Apply(Start(o), OnCommand(AppNext, io)).0;
      m.i == NOTHING && m.d == IDLE.(keys := {Physical(0x12, false)}) && !OnRecord(m)
  {
    hide Physical, ChordInputs;
    var alt := KeyInput(0x12, false, false);
    assert ChordInputs(Chord(AppNext))[..1] == [alt] by { FirstInput(Chord(AppNext)); }
    AfterOne(IDLE, alt);
    assert Physical(0x12, false) in IDLE.(keys := {Physical(0x12, false)}).keys;
  }

  lemma FirstInput(keys: seq<(U16, bool)>)
    requires keys != []
    ensures ChordInputs(keys)[..1] == [KeyInput(keys[0].0, false, keys[0].1)]
  {
  }

  /** Of a line feed Windows takes one input: Enter stays down. */
  lemma ACutTextIsLost(o: Options, io: Io)
    requires o.keyboard && io.sent == 1
    ensures var m := Apply(Start(o), OnText([LF], io)).0;
      m.i == NOTHING && m.d == IDLE.(keys := {TextTransfer.RETURN}) && !OnRecord(m)
  {
    assert TextTransfer.Events([LF], false) == TextTransfer.Enter() + [];
    var inputs := Natives(TextTransfer.Events([LF], false));
    assert inputs == [RETURN_DOWN] + [RETURN_UP];
    assert inputs[..1] == [RETURN_DOWN];
    AfterOne(IDLE, RETURN_DOWN);
    assert TextTransfer.RETURN in IDLE.(keys := {TextTransfer.RETURN}).keys;
  }

  /** The first mouse sample of all ends a stroke and names the first button, and Windows takes it whole: the
      button stays down. */
  lemma ATerminalMouseIsLost(o: Options, s: Contact, io: Io)
    requires o.mouse && s.device.Mouse? && s.action.Up? && s.flags == 1 && io.sent >= 6
    ensures var m := Apply(Start(o), OnSample(s, io)).0;
      m.i == NOTHING && m.d == IDLE.(buttons := {0}) && !OnRecord(m)
  {
    hide RecordedKeys, Mapped, HasButton, ButtonChanges;
    ChangesAreFew(0, s.flags, BUTTONS);
    OneButton();
    NoButtons();
    assert Exact(Start(o)) by { StartOnRecord(o); }
    MouseFelt(Start(o), s);
    TerminalMouseIff(Start(o), s, io);
    assert Buttons(1) == {0};
  }

  lemma {:induction false} ChangesAreFew(previous: U16, current: U16, n: nat)
    ensures |ButtonChanges(previous, current, n)| <= n
  {
    hide HasButton;
    if n > 0 { ChangesAreFew(previous, current, n - 1); }
  }

  lemma OneButton()
    ensures Buttons(1) == {0}
  {
    forall b: nat ensures HasButton(1, b) <==> b == 0 {
      if b > 0 { PowerAboveOne(b); }
    }
  }

  lemma PowerAboveOne(b: nat)
    requires b > 0
    ensures Power(b) >= 2
  {
  }

  /** A key goes down and Windows refuses to let it go: it stays down. */
  lemma ARefusedKeyUpIsLost(o: Options, code: Code, down: Io, up: Io)
    requires o.keyboard && VirtualKey(code).Some? && down.sent >= 1 && up.sent == 0
    ensures var m := Run(Start(o), [OnKey(code, KeyDown, down), OnKey(code, KeyUp, up)]);
      m.i == NOTHING && m.d == IDLE.(keys := {KeyOf(VirtualKey(code).value)}) && !OnRecord(m)
  {
    hide Physical, IsExtended, VirtualKey, RecordedKeys;
    var key := VirtualKey(code).value;
    var m1 := Apply(Start(o), OnKey(code, KeyDown, down)).0;
    AfterOne(IDLE, KeyInput(key, false, IsExtended(key)));
    AfterNothing(m1.d);
    assert m1.i.keys == map[code := key] && map[code := key] - {code} == map[];
    RunTwo(Start(o), OnKey(code, KeyDown, down), OnKey(code, KeyUp, up));
    assert {} + {KeyOf(key)} == {KeyOf(key)};
    assert KeyOf(key) in m1.d.keys;
    assert RecordedKeys(map[]) == {} by { NoKeys(); }
  }

  lemma NoKeys()
    ensures RecordedKeys(map[]) == {}
  {
  }

  /** A pen touches down and Windows refuses to release it: it stays in contact. */
  lemma ARefusedPenReleaseIsLost(o: Options, s: Contact, down: Io, reset: Io)
    requires o.pen && s.device.Pen? && s.action.Down? && down.works && !reset.releases
    ensures var m := Run(Start(o), [OnSample(s, down), OnReset(reset)]);
      m.i == NOTHING && m.d == IDLE.(pens := {Max(s.id, 1)}) && !OnRecord(m)
  {
    assert OnRecord(Start(o)) by { StartOnRecord(o); }
    PenTakesEffect(Start(o), s, down);
    RunTwo(Start(o), OnSample(s, down), OnReset(reset));
    var m1 := Apply(Start(o), OnSample(s, down)).0;
    assert Max(s.id, 1) in m1.d.pens;
  }
}
