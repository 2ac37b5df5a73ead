/** What the injector's switches, its palm rejection and its order of work mean for what Windows holds. */
module InjectionRules {
  import opened Bytes
  import opened Unicode
  import opened Protocol
  import opened VirtualKeys
  import opened Desktop
  import opened Injection
  import opened InjectionSafety

  /** A call of a kind that is switched off. */
  predicate IsSwitchedOff(o: Options, c: Call) {
    match c
    case OnSample(s, _) => (s.device.Pen? && !o.pen) || (s.device.Touch? && !o.touch) || (s.device.Mouse? && !o.mouse)
    case OnKey(_, _, _) => !o.keyboard
    case OnText(_, _) => !o.keyboard
    case OnCommand(command, _) => command != ResetInput && !o.gestures
    case OnOptions(_) => false
    case OnReset(_) => false
  }

  /** What is switched off does nothing, and that is no failure. */
  lemma SwitchedOffDoesNothing(m: Machine, c: Call)
    requires IsSwitchedOff(m.o, c)
    ensures Apply(m, c) == (m, true)
  {
  }

  /** While a pen is in contact, palm rejection keeps every touch away from Windows; while none is, or without
      palm rejection, a touch that is switched on takes effect. */
  lemma PalmsAreRejected(m: Machine, s: Contact, io: Io)
    requires OnRecord(m) && s.device.Touch? && m.o.touch
    ensures m.o.palmRejection && m.d.pens != {} ==> InjectSample(m, s, io) == (m, true)
    ensures (!m.o.palmRejection || m.d.pens == {}) && !s.action.Hover? && InjectSample(m, s, io).1 ==>
      InjectSample(m, s, io).0.d.touches ==
        if s.action.IsTerminal() then m.i.touches - {Max(s.id, 1)} else m.i.touches + {Max(s.id, 1)}
  {
    hide RecordedKeys, Mapped, Buttons;
    if (!m.o.palmRejection || m.d.pens == {}) && !s.action.Hover? && InjectSample(m, s, io).1 {
      TouchTakesEffect(m, s, io);
    }
  }

  /** Alt, Tab, Shift and the Windows key, as the commands press them. */
  const ALT: U16 := 0x12
  const TAB: U16 := 0x09
  const SHIFT: U16 := 0x10
  const WINDOWS: U16 := 0x5B

  function Down(key: U16, extended: bool): Native { KeyInput(key, false, extended) }
  function Up(key: U16, extended: bool): Native { KeyInput(key, true, extended) }

  /** The next application is Alt and Tab, the previous one with Shift between, Task View is Windows and Tab;
      minimizing presses nothing. */
  lemma CommandsPress(m: Machine, io: Io)
    requires m.o.gestures
    ensures InjectCommand(m, AppNext, io) ==
      SendInput(m, [Down(ALT, false), Down(TAB, false), Up(TAB, false), Up(ALT, false)], io.sent)
    ensures InjectCommand(m, AppPrevious, io) ==
      SendInput(m, [Down(ALT, false), Down(SHIFT, false), Down(TAB, false), Up(TAB, false), Up(SHIFT, false), Up(ALT, false)], io.sent)
    ensures InjectCommand(m, TaskView, io) ==
      SendInput(m, [Down(WINDOWS, true), Down(TAB, false), Up(TAB, false), Up(WINDOWS, true)], io.sent)
    ensures InjectCommand(m, MinimizeForeground, io) == (m, io.works)
  {
    hide SendInput;
    TwoKeys((ALT, false), (TAB, false));
    TwoKeys((WINDOWS, true), (TAB, false));
    ThreeKeys((ALT, false), (SHIFT, false), (TAB, false));
  }

  lemma TwoKeys(a: (U16, bool), b: (U16, bool))
    ensures ChordInputs([a, b]) == [Down(a.0, a.1), Down(b.0, b.1), Up(b.0, b.1), Up(a.0, a.1)]
  {
    assert [a, b][1..] == [b] && [b][1..] == [];
    assert ChordInputs([b]) == [Down(b.0, b.1)] + ChordInputs([]) + [Up(b.0, b.1)];
  }

  lemma ThreeKeys(a: (U16, bool), b: (U16, bool), c: (U16, bool))
    ensures ChordInputs([a, b, c]) ==
      [Down(a.0, a.1), Down(b.0, b.1), Down(c.0, c.1), Up(c.0, c.1), Up(b.0, b.1), Up(a.0, a.1)]
  {
    assert [a, b, c][1..] == [b, c];
    TwoKeys(b, c);
  }

  // ----- batches -----

  /** The machine after these samples, if all of them succeed. */
  predicate Follows(m: Machine, samples: seq<Contact>, ios: seq<Io>, m': Machine)
    requires |samples| == |ios|
    decreases |samples|
  {
    if samples == [] then m' == m
    else InjectSample(m, samples[0], ios[0]).1 && Follows(InjectSample(m, samples[0], ios[0]).0, samples[1..], ios[1..], m')
  }

  /** A batch is injected up to its first sample that fails: those before it have succeeded one after the other,
      it has been tried, and none after it. */
  lemma {:induction false} BatchStops(m: Machine, samples: seq<Contact>, ios: seq<Io>) returns (n: nat, before: Machine)
    requires |samples| == |ios|
    ensures n <= |samples| && Follows(m, samples[..n], ios[..n], before)
    ensures var (m', ok) := InjectSamples(m, samples, ios);
      if ok then n == |samples| && m' == before
      else n < |samples| && (m', false) == InjectSample(before, samples[n], ios[n])
    decreases |samples|
  {
    hide InjectSample;
    if samples == [] {
      n, before := 0, m;
    } else if !InjectSample(m, samples[0], ios[0]).1 {
      n, before := 0, m;
    } else {
      n, before := BatchStops(InjectSample(m, samples[0], ios[0]).0, samples[1..], ios[1..]);
      n := n + 1;
      assert samples[..n][1..] == samples[1..][..n - 1] && ios[..n][1..] == ios[1..][..n - 1];
    }
  }
}
