/** The host's bookkeeping of pointer input: which pointers are down, whether their lifecycle makes
    sense, and which sequence numbers are missing or late. */
module Metrics {
  import opened Bytes
  import opened Protocol

  /** What the bookkeeping looks at in a sample and in a batch. */
  datatype Mark = Mark(device: Device, action: Action, id: U32, sequence: U32)
  datatype Packet = Packet(sequence: U32, marks: seq<Mark>)

  type Pointer = (Device, U32)

  function MarkOf(s: Sample): Mark { Mark(s.device, s.action, s.pointerId, s.sequence) }

  function Marks(samples: seq<Sample>): (r: seq<Mark>)
    ensures |r| == |samples|
  {
    seq(|samples|, i requires 0 <= i < |samples| => MarkOf(samples[i]))
  }

  function PacketOf(b: Batch): Packet { Packet(b.sequence, Marks(b.samples)) }

  // ----- sequence numbers -----

  const HALF: int := 0x8000_0000

  /** A counter of 32 bits followed through its wrap-around. */
  datatype Sequence = Sequence(expected: Option<U32>, gaps: nat, late: nat)

  function WrappingSub(a: U32, b: U32): U32 { (a - b) % TWO32 }
  function Wrap32(n: int): U32 { n % TWO32 }

  function Observe(s: Sequence, received: U32): Sequence {
    if s.expected.None? then s.(expected := Some(Wrap32(received + 1)))
    else
      var forward := WrappingSub(received, s.expected.value);
      if forward == 0 then s.(expected := Some(Wrap32(received + 1)))
      else if forward < HALF then s.(expected := Some(Wrap32(received + 1)), gaps := s.gaps + forward)
      else s.(late := s.late + 1)
  }

  // ----- lifecycle -----

  datatype Life = Life(active: set<Pointer>, errors: nat)

  function Lived(l: Life, m: Mark): Life {
    var key := (m.device, m.id);
    match m.action
    case Down => Life(l.active + {key}, l.errors + (if key in l.active then 1 else 0))
    case Move => l.(errors := l.errors + (if key in l.active then 0 else 1))
    case Hover => l
    case _ => Life(l.active - {key}, l.errors + (if key in l.active then 0 else 1))
  }

  function LivedAll(l: Life, marks: seq<Mark>): Life {
    if marks == [] then l else Lived(LivedAll(l, marks[..|marks| - 1]), marks[|marks| - 1])
  }

  datatype Host = Host(batches: Sequence, samples: Sequence, life: Life)

  function ReplayMark(h: Host, m: Mark): Host {
    h.(samples := Observe(h.samples, m.sequence), life := Lived(h.life, m))
  }

  function ReplayMarks(h: Host, marks: seq<Mark>): Host {
    if marks == [] then h else ReplayMark(ReplayMarks(h, marks[..|marks| - 1]), marks[|marks| - 1])
  }

  function Replay(h: Host, p: Packet): Host {
    ReplayMarks(h.(batches := Observe(h.batches, p.sequence)), p.marks)
  }

  /** `reset_input_continuity`: the counters stay. */
  function Reset(h: Host): Host {
    Host(h.batches.(expected := None), h.samples.(expected := None), h.life.(active := {}))
  }

  class Counter {
    var expected: Option<U32>
    var gaps: nat
    var late: nat

    constructor ()
      ensures State() == Sequence(None, 0, 0)
    {
      expected, gaps, late := None, 0, 0;
    }

    function State(): Sequence
      reads this
    {
      Sequence(expected, gaps, late)
    }

    /** `observe_sequence`. */
    method ObserveSequence(received: U32)
      modifies this
      ensures State() == Observe(old(State()), received)
    {
      if expected.Some? {
        var forward := WrappingSub(received, expected.value);
        if forward == 0 {
          expected := Some(Wrap32(received + 1));
        } else if forward < HALF {
          gaps := gaps + forward;
          expected := Some(Wrap32(received + 1));
        } else {
          late := late + 1;
        }
      } else {
        expected := Some(Wrap32(received + 1));
      }
    }
  }

  class Metrics {
    const batches: Counter
    const samples: Counter
    var activePointers: set<Pointer>
    var lifecycleErrors: nat

    predicate Valid()
      reads this
    {
      batches != samples
    }

    function State(): Host
      reads this, batches, samples
    {
      Host(batches.State(), samples.State(), Life(activePointers, lifecycleErrors))
    }

    constructor ()
      ensures Valid() && fresh(batches) && fresh(samples)
      ensures State() == Host(Sequence(None, 0, 0), Sequence(None, 0, 0), Life({}, 0))
    {
      var b := new Counter();
      var s := new Counter();
      batches, samples := b, s;
      activePointers, lifecycleErrors := {}, 0;
    }

    method InputBatch(batch: Batch)
      requires Valid()
      modifies this, batches, samples
      ensures Valid() && State() == Replay(old(State()), PacketOf(batch))
    {
      hide Observe;
      var marks := Marks(batch.samples);
      batches.ObserveSequence(batch.sequence);
      ghost var start := old(State()).(batches := Observe(old(batches.State()), batch.sequence));
      var i := 0;
      while i < |batch.samples|
        invariant 0 <= i <= |batch.samples|
        invariant State() == ReplayMarks(start, marks[..i])
      {
        var sample := batch.samples[i];
        samples.ObserveSequence(sample.sequence);
        var key := (sample.device, sample.pointerId);
        match sample.action {
          case Down =>
            if key in activePointers { lifecycleErrors := lifecycleErrors + 1; }
            activePointers := activePointers + {key};
          case Move =>
            if key !in activePointers { lifecycleErrors := lifecycleErrors + 1; }
          case Hover =>
          case _ =>
            if key !in activePointers { lifecycleErrors := lifecycleErrors + 1; }
            activePointers := activePointers - {key};
        }
        assert marks[..i + 1][..i] == marks[..i];
        i := i + 1;
      }
      assert marks[..i] == marks;
    }

    method ResetInputContinuity()
      requires Valid()
      modifies this, batches, samples
      ensures Valid() && State() == Reset(old(State()))
    {
      batches.expected := None;
      samples.expected := None;
      activePointers := {};
    }

    method HasActivePointers() returns (any: bool)
      ensures any <==> exists key :: key in State().life.active
    {
      any := activePointers != {};
      assert any ==> exists key :: key in activePointers;
    }
  }

  // ----- what the numbers mean -----

  /** The same observation with numbers that never wrap: `index` arrives, `expected` was next. */
  function Ideal(s: Sequence, expected: nat, index: nat): Sequence {
    if index >= expected then Sequence(Some(Wrap32(index + 1)), s.gaps + (index - expected), s.late)
    else s.(late := s.late + 1)
  }

  /** Following the wrapped numbers is following the real ones exactly as long as what arrives is within
      2^31 of what is expected. */
  lemma WrappingIsExact(s: Sequence, expected: nat, index: nat)
    requires s.expected == Some(Wrap32(expected)) && -TWO32 < index - expected < TWO32
    ensures Observe(s, Wrap32(index)) == Ideal(s, expected, index) <==> -HALF <= index - expected < HALF
  {
    var forward := WrappingSub(Wrap32(index), Wrap32(expected));
    DifferenceOfRemainders(index, expected);
    SumOfRemainder(index);
    assert forward == if index >= expected then index - expected else index - expected + TWO32;
  }

  lemma DifferenceOfRemainders(a: int, b: int)
    requires -TWO32 < a - b < TWO32
    ensures (a % TWO32 - b % TWO32) % TWO32 == if a >= b then a - b else a - b + TWO32
  {
    var qa, qb := a / TWO32, b / TWO32;
    var d := a % TWO32 - b % TWO32;
    assert d == a - b - (qa - qb) * TWO32;
    assert -1 <= qa - qb <= 1;
  }

  lemma SumOfRemainder(a: nat)
    ensures Wrap32(Wrap32(a) + 1) == Wrap32(a + 1)
  {
  }

  /** Which of the numbers handed out from some number on were sent, in their order. */
  type Log = seq<bool>

  function Numbers(log: Log, start: nat): seq<U32> {
    if log == [] then []
    else Numbers(log[..|log| - 1], start) + (if log[|log| - 1] then [Wrap32(start + |log| - 1)] else [])
  }

  function ObserveAll(s: Sequence, numbers: seq<U32>): Sequence {
    if numbers == [] then s else Observe(ObserveAll(s, numbers[..|numbers| - 1]), numbers[|numbers| - 1])
  }

  /** How many numbers at the end of the log were not sent. */
  function Trailing(log: Log): (n: nat)
    ensures n <= |log|
    ensures n < |log| <==> true in log
  {
    if log == [] || log[|log| - 1] then 0 else 1 + Trailing(log[..|log| - 1])
  }

  /** How many numbers were not sent although one before and one after them was. */
  function Missing(log: Log): nat {
    if log == [] then 0
    else
      var before := log[..|log| - 1];
      Missing(before) + (if log[|log| - 1] && true in before then Trailing(before) else 0)
  }

  /** Never 2^31 numbers in a row unsent. */
  predicate Dense(log: Log) { log == [] || (Dense(log[..|log| - 1]) && Trailing(log) < HALF) }

  /** A counter that began afresh from `base` and has seen everything of the log that was sent. */
  predicate Follows(s: Sequence, base: Sequence, log: Log, start: nat) {
    && s.gaps == base.gaps + Missing(log) && s.late == base.late
    && s.expected == if true in log then Some(Wrap32(start + |log| - Trailing(log))) else None
  }

  lemma SendingFollows(s: Sequence, base: Sequence, before: Log, start: nat)
    requires Follows(s, base, before, start) && Trailing(before) < HALF
    ensures Follows(Observe(s, Wrap32(start + |before|)), base, before + [true], start)
  {
    hide Observe, Wrap32, Missing, Trailing;
    AfterSending(before);
    if true in before {
      ObserveNear(s, start + |before| - Trailing(before), start + |before|);
    } else {
      FirstObserved(s, start + |before|);
    }
  }

  lemma ObserveNear(s: Sequence, expected: nat, index: nat)
    requires s.expected == Some(Wrap32(expected)) && 0 <= index - expected < HALF
    ensures Observe(s, Wrap32(index)) == Sequence(Some(Wrap32(index + 1)), s.gaps + (index - expected), s.late)
  {
    hide Observe, Wrap32;
    WrappingIsExact(s, expected, index);
  }

  lemma AfterSending(before: Log)
    ensures var log := before + [true];
      && true in log && Trailing(log) == 0
      && Missing(log) == Missing(before) + if true in before then Trailing(before) else 0
    ensures true !in before ==> Missing(before) == 0
  {
    var log := before + [true];
    assert log[..|log| - 1] == before && log[|before|];
    if true !in before { NothingMissing(before); }
  }

  lemma {:induction false} NothingMissing(log: Log)
    requires true !in log
    ensures Missing(log) == 0
  {
    if log != [] { NothingMissing(log[..|log| - 1]); }
  }

  lemma FirstObserved(s: Sequence, index: nat)
    requires s.expected.None?
    ensures Observe(s, Wrap32(index)) == s.(expected := Some(Wrap32(index + 1)))
  {
    hide Wrap32;
    SumOfRemainder(index);
  }

  lemma SkippingFollows(s: Sequence, base: Sequence, before: Log, start: nat)
    requires Follows(s, base, before, start)
    ensures Follows(s, base, before + [false], start)
  {
    var log := before + [false];
    assert log[..|log| - 1] == before && !log[|before|];
  }

  /** A receiver that begins afresh and sees all that is sent, in order, counts as gaps exactly the numbers
      that were handed out and not sent between the first and the last one sent, and never one as late. */
  lemma {:induction false} GapsAreTheMissing(base: Sequence, log: Log, start: nat)
    requires Dense(log) && base.expected.None?
    ensures Follows(ObserveAll(base, Numbers(log, start)), base, log, start)
  {
    hide Observe, Missing, Wrap32, Dense, Follows, Trailing;
    if log == [] {
      NothingFollows(base, start);
    } else {
      var before := log[..|log| - 1];
      DenseBefore(log);
      GapsAreTheMissing(base, before, start);
      var numbers := Numbers(before, start);
      var s := ObserveAll(base, numbers);
      assert log == before + [log[|log| - 1]];
      if log[|log| - 1] {
        SendingFollows(s, base, before, start);
        assert (numbers + [Wrap32(start + |log| - 1)])[..|numbers|] == numbers;
      } else {
        SkippingFollows(s, base, before, start);
        assert numbers + [] == numbers;
      }
    }
  }

  lemma NothingFollows(base: Sequence, start: nat)
    requires base.expected.None?
    ensures Follows(base, base, [], start)
  {
  }

  lemma DenseBefore(log: Log)
    requires Dense(log) && log != []
    ensures Dense(log[..|log| - 1]) && Trailing(log[..|log| - 1]) < HALF
  {
  }

  /** Every number handed out was sent, is missing, came before the first one sent, or after the last. */
  lemma {:induction false} EveryNumberIsAccounted(log: Log, start: nat)
    ensures true in log ==> |Numbers(log, start)| + Missing(log) + Trailing(log) + Leading(log) == |log|
    ensures true !in log ==> Numbers(log, start) == [] && Missing(log) == 0 && Trailing(log) == |log| == Leading(log)
  {
    if log != [] {
      var before := log[..|log| - 1];
      EveryNumberIsAccounted(before, start);
      assert log == before + [log[|log| - 1]];
    }
  }

  function Leading(log: Log): nat {
    if log == [] then 0
    else
      var before := log[..|log| - 1];
      Leading(before) + (if log[|log| - 1] || true in before then 0 else 1)
  }
}
