/** What Windows holds down for us, and what injected input does to it. */
module Desktop {
  import opened Bytes
  import opened VirtualKeys

  /** An element of a SendInput call: keys and buttons; movement, wheel and Unicode units hold nothing. */
  datatype Native = KeyInput(key: U16, up: bool, extended: bool) | ButtonInput(button: nat, up: bool) | Passing

  /** One pointer of an InjectSyntheticPointerInput call: it is in contact afterwards exactly if the flag
      says so. */
  datatype Frame = Frame(id: U32, inContact: bool)

  datatype Desktop = Desktop(keys: set<U16>, buttons: set<nat>, pens: set<U32>, touches: set<U32>)

  const IDLE := Desktop({}, {}, {}, {})

  function Felt(d: Desktop, n: Native): Desktop {
    match n
    case KeyInput(key, up, extended) =>
      d.(keys := if up then d.keys - {Physical(key, extended)} else d.keys + {Physical(key, extended)})
    case ButtonInput(button, up) => d.(buttons := if up then d.buttons - {button} else d.buttons + {button})
    case Passing => d
  }

  function After(d: Desktop, inputs: seq<Native>): Desktop {
    if inputs == [] then d else Felt(After(d, inputs[..|inputs| - 1]), inputs[|inputs| - 1])
  }

  function Contacts(held: set<U32>, frames: seq<Frame>): set<U32> {
    if frames == [] then held
    else
      var before, last := Contacts(held, frames[..|frames| - 1]), frames[|frames| - 1];
      if last.inContact then before + {last.id} else before - {last.id}
  }

  lemma {:induction false} AfterMore(d: Desktop, a: seq<Native>, b: seq<Native>)
    ensures After(d, a + b) == After(After(d, a), b)
  {
    if b == [] {
      assert a + b == a;
    } else {
      assert (a + b)[..|a + b| - 1] == a + b[..|b| - 1];
      AfterMore(d, a, b[..|b| - 1]);
    }
  }

  // ----- mouse buttons -----

  const BUTTONS := 5

  function Power(n: nat): (p: nat)
    ensures p > 0
  {
    if n == 0 then 1 else 2 * Power(n - 1)
  }

  predicate HasButton(flags: U16, b: nat) { flags as int / Power(b) % 2 == 1 }

  function Buttons(flags: U16): (s: set<nat>)
    ensures forall b: nat :: b in s <==> b < BUTTONS && HasButton(flags, b)
  {
    set b: nat | 0 <= b < BUTTONS && HasButton(flags, b)
  }

  /** `append_button`. */
  function ButtonChange(previous: U16, current: U16, b: nat): seq<Native> {
    if !HasButton(previous, b) && HasButton(current, b) then [ButtonInput(b, false)]
    else if HasButton(previous, b) && !HasButton(current, b) then [ButtonInput(b, true)]
    else []
  }

  function ButtonChanges(previous: U16, current: U16, n: nat): seq<Native> {
    if n == 0 then [] else ButtonChanges(previous, current, n - 1) + ButtonChange(previous, current, n - 1)
  }

  /** Whether a button is down after the changes to the first n buttons. */
  predicate DownAfter(held: set<nat>, previous: U16, current: U16, n: nat, b: nat) {
    if b < n && HasButton(previous, b) != HasButton(current, b) then HasButton(current, b) else b in held
  }

  /** The changes turn what was recorded into what is wanted, and touch nothing else. */
  lemma {:induction false} ChangesFelt(d: Desktop, previous: U16, current: U16, n: nat)
    ensures var d' := After(d, ButtonChanges(previous, current, n));
      && d' == d.(buttons := d'.buttons)
      && forall b: nat :: b in d'.buttons <==> DownAfter(d.buttons, previous, current, n, b)
  {
    hide HasButton, After, ButtonChange;
    if n == 0 {
      AfterNothing(d);
    } else {
      var before, held := ButtonChanges(previous, current, n - 1), After(d, ButtonChanges(previous, current, n - 1)).buttons;
      ChangesFelt(d, previous, current, n - 1);
      AfterMore(d, before, ButtonChange(previous, current, n - 1));
      OneChangeFelt(After(d, before), previous, current, n - 1);
      var now := After(d, ButtonChanges(previous, current, n)).buttons;
      forall b: nat ensures b in now <==> DownAfter(d.buttons, previous, current, n, b) {
        assert b in held <==> DownAfter(d.buttons, previous, current, n - 1, b);
      }
    }
  }

  lemma AfterNothing(d: Desktop)
    ensures After(d, []) == d
  {
  }

  lemma OneChangeFelt(d: Desktop, previous: U16, current: U16, b: nat)
    ensures After(d, ButtonChange(previous, current, b)) ==
      if HasButton(previous, b) == HasButton(current, b) then d
      else d.(buttons := if HasButton(current, b) then d.buttons + {b} else d.buttons - {b})
  {
    hide HasButton;
    var change := ButtonChange(previous, current, b);
    if change != [] {
      assert change[..0] == [];
      assert After(d, []) == d;
    }
  }

  lemma NoButtons()
    ensures Buttons(0) == {}
  {
    forall b | b in Buttons(0) ensures false { ZeroHasNone(b); }
  }

  lemma ZeroHasNone(b: nat)
    ensures !HasButton(0, b)
  {
    assert 0 / Power(b) == 0;
  }

  // ----- keys -----

  predicate AllUps(inputs: seq<Native>) { forall n :: n in inputs ==> n.KeyInput? && n.up }

  function Lifted(inputs: seq<Native>): set<U16> {
    set n | n in inputs && n.KeyInput? :: Physical(n.key, n.extended)
  }

  lemma {:induction false} UpsFelt(d: Desktop, inputs: seq<Native>)
    requires AllUps(inputs)
    ensures After(d, inputs) == d.(keys := d.keys - Lifted(inputs))
  {
    if inputs != [] {
      var front, last := inputs[..|inputs| - 1], inputs[|inputs| - 1];
      UpsFelt(d, front);
      assert last in inputs;
      assert Lifted(inputs) == Lifted(front) + {Physical(last.key, last.extended)} by {
        assert forall n :: n in inputs <==> n in front || n == last;
      }
    } else {
      assert d.keys - Lifted(inputs) == d.keys;
    }
  }
}
