/** Browser, channel and host: packets travel in order, and when the channel breaks the browser abandons
    its pointers, what was on its way is lost, and the host starts afresh. */
module PointerSystem {
  import opened Bytes
  import opened Protocol
  import opened Metrics
  import opened PointerEngine
  import opened PointerSync

  /** `epoch` is the number of sample numbers handed out before the last interruption, `base` the host's
      sample counter right after it. */
  datatype World = World(engine: Engine, queue: seq<Packet>, host: Host, epoch: nat, base: Sequence)

  datatype Step = OnPointer(ev: Event) | OnCancelAll | Deliver | Interrupt

  /** Browser events that are well formed and not of the breaking kind; deliveries of what is there. */
  predicate Allowed(w: World, step: Step) {
    match step
    case OnPointer(ev) => Belongs(w.engine, ev) && !Breaks(w.engine, ev)
    case Deliver => w.queue != []
    case _ => true
  }

  function Apply(w: World, step: Step): World
    requires Allowed(w, step)
  {
    match step
    case OnPointer(ev) =>
      var (e, s) := Handle(w.engine, ev);
      w.(engine := e, queue := if s.Sent? then w.queue + [s.packet] else w.queue)
    case OnCancelAll =>
      var (e, packets) := Canceled(w.engine);
      w.(engine := e, queue := w.queue + packets)
    case Deliver => w.(host := Replay(w.host, w.queue[0]), queue := w.queue[1..])
    case Interrupt =>
      World(Abandoned(w.engine), [], Reset(w.host), |w.engine.log|, Reset(w.host).samples)
  }

  predicate AllowedRun(w: World, steps: seq<Step>)
    decreases |steps|
  {
    steps == [] || (Allowed(w, steps[0]) && AllowedRun(Apply(w, steps[0]), steps[1..]))
  }

  function Run(w: World, steps: seq<Step>): World
    requires AllowedRun(w, steps)
    decreases |steps|
  {
    if steps == [] then w else Run(Apply(w, steps[0]), steps[1..])
  }

  const FRESH := Sequence(None, 0, 0)

  function Start(): World { World(Engine([], {}, 0, 0, []), [], Host(FRESH, FRESH, Life({}, 0)), 0, FRESH) }

  // ----- replaying a queue -----

  function ReplayAll(h: Host, queue: seq<Packet>): Host {
    if queue == [] then h else Replay(ReplayAll(h, queue[..|queue| - 1]), queue[|queue| - 1])
  }

  lemma ReplayOneMore(h: Host, queue: seq<Packet>, p: Packet)
    ensures ReplayAll(h, queue + [p]) == Replay(ReplayAll(h, queue), p)
  {
    assert (queue + [p])[..|queue|] == queue;
  }

  lemma {:induction false} ReplayFirst(h: Host, queue: seq<Packet>)
    requires queue != []
    ensures ReplayAll(h, queue) == ReplayAll(Replay(h, queue[0]), queue[1..])
  {
    hide Replay;
    if |queue| == 1 {
      assert queue[..0] == [];
      assert ReplayAll(h, []) == h;
    } else {
      ReplayFirst(h, queue[..|queue| - 1]);
      assert queue[..|queue| - 1][1..] == queue[1..][..|queue| - 2];
    }
  }

  function Sequences(marks: seq<Mark>): (r: seq<U32>)
    ensures |r| == |marks| && forall i :: 0 <= i < |r| ==> r[i] == marks[i].sequence
  {
    seq(|marks|, i requires 0 <= i < |marks| => marks[i].sequence)
  }

  lemma {:induction false} ReplayParts(h: Host, marks: seq<Mark>)
    ensures ReplayMarks(h, marks) == Host(h.batches, ObserveAll(h.samples, Sequences(marks)), LivedAll(h.life, marks))
  {
    hide Observe, Lived;
    if marks != [] {
      ReplayParts(h, marks[..|marks| - 1]);
      assert Sequences(marks)[..|marks| - 1] == Sequences(marks[..|marks| - 1]);
    }
  }

  lemma ReplayPacket(h: Host, p: Packet)
    ensures Replay(h, p).life == LivedAll(h.life, p.marks)
    ensures Replay(h, p).samples == ObserveAll(h.samples, Sequences(p.marks))
  {
    ReplayParts(h.(batches := Observe(h.batches, p.sequence)), p.marks);
  }

  lemma {:induction false} ErrorsGrow(l: Life, marks: seq<Mark>)
    ensures LivedAll(l, marks).errors >= l.errors
  {
    if marks != [] { ErrorsGrow(l, marks[..|marks| - 1]); }
  }

  lemma {:induction false} ErrorsGrowAll(h: Host, queue: seq<Packet>)
    ensures ReplayAll(h, queue).life.errors >= h.life.errors
  {
    hide Replay;
    if queue != [] {
      ErrorsGrowAll(h, queue[..|queue| - 1]);
      ReplayPacket(ReplayAll(h, queue[..|queue| - 1]), queue[|queue| - 1]);
      ErrorsGrow(ReplayAll(h, queue[..|queue| - 1]).life, queue[|queue| - 1].marks);
    }
  }

  // ----- numbers -----

  lemma {:induction false} ObserveMore(s: Sequence, a: seq<U32>, b: seq<U32>)
    ensures ObserveAll(s, a + b) == ObserveAll(ObserveAll(s, a), b)
  {
    hide Observe;
    if b == [] {
      assert a + b == a;
    } else {
      assert (a + b)[..|a + b| - 1] == a + b[..|b| - 1];
      ObserveMore(s, a, b[..|b| - 1]);
    }
  }

  /** The numbers from `first` on. */
  function Consecutive(first: nat, n: nat): (r: seq<U32>)
    ensures |r| == n && forall i :: 0 <= i < n ==> r[i] == Wrap32(first + i)
  {
    seq<U32>(n, i requires 0 <= i < n => Wrap32(first + i))
  }

  lemma {:induction false} NumbersGrow(log: Log, start: nat, sent: bool, n: nat)
    ensures Numbers(log + Repeat(sent, n), start) ==
            Numbers(log, start) + if sent then Consecutive(start + |log|, n) else []
    decreases n
  {
    hide Wrap32;
    var more := log + Repeat(sent, n);
    if n == 0 {
      assert more == log;
    } else {
      assert more[..|more| - 1] == log + Repeat(sent, n - 1);
      NumbersGrow(log, start, sent, n - 1);
      assert Consecutive(start + |log|, n) == Consecutive(start + |log|, n - 1) + [Wrap32(start + |more| - 1)];
    }
  }

  lemma OffsetNumbers(total: nat, i: nat)
    ensures Wrap32(Wrap32(total) + i) == Wrap32(total + i)
  {
    ModAdds(total, i);
  }

  lemma ModAdds(a: nat, b: nat)
    ensures (a % TWO32 + b) % TWO32 == (a + b) % TWO32
  {
    var q := a / TWO32;
    assert a == q * TWO32 + a % TWO32;
    ModShift(a % TWO32 + b, q);
  }

  lemma {:induction false} ModShift(a: nat, q: nat)
    ensures (a + q * TWO32) % TWO32 == a % TWO32
  {
    if q > 0 {
      ModShift(a, q - 1);
      assert a + q * TWO32 == a + (q - 1) * TWO32 + TWO32;
    }
  }

  // ----- what holds all the time -----

  /** With everything on its way delivered, the host has seen the browser's pointers and no error. */
  predicate Agrees(w: World) {
    Distinct(w.engine.active) && ReplayAll(w.host, w.queue).life == Life(Keys(w.engine.active), 0)
  }

  /** With everything on its way delivered, the host has observed, since the last interruption, exactly
      the numbers that the log says were sent. */
  predicate Counts(w: World) {
    && w.epoch <= |w.engine.log| && w.base.expected.None?
    && w.engine.next == Wrap32(|w.engine.log|)
    && ReplayAll(w.host, w.queue).samples == ObserveAll(w.base, Numbers(w.engine.log[w.epoch..], w.epoch))
  }

  predicate Invariant(w: World) { Agrees(w) && Counts(w) }

  // ----- what one event sends -----

  lemma OutgoingNumbers(e: Engine, ev: Event)
    requires e.next == Wrap32(|e.log|)
    ensures var marks := Outgoing(e, ev);
      marks != [] ==> |marks| == |KeptPoints(e, ev)| && Sequences(marks) == Consecutive(|e.log|, |marks|)
  {
    hide Wrap32, Kept;
    var samples, marks := Samples(KeptPoints(e, ev), e.next), Outgoing(e, ev);
    forall i | 0 <= i < |marks| ensures Sequences(marks)[i] == Consecutive(|e.log|, |marks|)[i] {
      OffsetNumbers(|e.log|, i);
      assert marks[i].sequence == samples[i].sequence;
    }
  }

  /** The log grows by what was numbered, and says it was sent exactly if it was. */
  lemma HandledNumbers(e: Engine, ev: Event)
    requires e.next == Wrap32(|e.log|)
    ensures var (e', s) := Handle(e, ev);
      && e'.next == Wrap32(|e'.log|)
      && (exists sent: bool, n: nat :: e'.log == e.log + Repeat(sent, n)
           && (if sent then s.Sent? && Sequences(s.packet.marks) == Consecutive(|e.log|, n) else !s.Sent?))
  {
    hide Wrap32, KeptPoints, Outgoing, Without, Starts;
    if Ignored(e, ev) {
      assert Handle(e, ev).0.log == e.log + Repeat(false, 0);
    } else {
      OutgoingNumbers(e, ev);
      var n, marks := |KeptPoints(e, ev)|, Outgoing(e, ev);
      var sent := 0 < |marks| <= MAX_SAMPLES;
      OffsetNumbers(|e.log|, n);
      assert Handle(e, ev).0.log == e.log + Repeat(sent, n);
    }
  }

  // ----- every step keeps it -----

  lemma SuffixGrows(log: Log, more: Log, epoch: nat)
    requires epoch <= |log|
    ensures (log + more)[epoch..] == log[epoch..] + more
  {
  }

  lemma EventKeepsCounts(w: World, ev: Event)
    requires Counts(w) && Allowed(w, OnPointer(ev))
    ensures Counts(Apply(w, OnPointer(ev)))
  {
    hide Handle, Wrap32, Replay, Belongs, Breaks, ReplayAll, ObserveAll, Sequences, Consecutive, Numbers, Repeat;
    var w' := Apply(w, OnPointer(ev));
    var (e', s) := Handle(w.engine, ev);
    HandledNumbers(w.engine, ev);
    var sent, n :| e'.log == w.engine.log + Repeat(sent, n)
      && (if sent then s.Sent? && Sequences(s.packet.marks) == Consecutive(|w.engine.log|, n) else !s.Sent?);
    var suffix := w.engine.log[w.epoch..];
    SuffixGrows(w.engine.log, Repeat(sent, n), w.epoch);
    NumbersGrow(suffix, w.epoch, sent, n);
    if sent {
      ReplayOneMore(w.host, w.queue, s.packet);
      ReplayPacket(ReplayAll(w.host, w.queue), s.packet);
      ObserveMore(w.base, Numbers(suffix, w.epoch), Consecutive(|w.engine.log|, n));
    } else {
      assert Numbers(suffix, w.epoch) + [] == Numbers(suffix, w.epoch);
    }
  }

  lemma EventKeepsAgreement(w: World, ev: Event)
    requires Agrees(w) && Allowed(w, OnPointer(ev))
    ensures Agrees(Apply(w, OnPointer(ev)))
  {
    hide Handle, Replay, Belongs, Breaks, Keys, Distinct;
    var s := Handle(w.engine, ev).1;
    InStepIff(w.engine, ev, ReplayAll(w.host, w.queue).life);
    if s.Sent? {
      ReplayOneMore(w.host, w.queue, s.packet);
      ReplayPacket(ReplayAll(w.host, w.queue), s.packet);
    }
  }

  lemma CancelOne(l: Life, active: seq<Active>, i: nat, sequence: U32)
    requires i < |active| && Distinct(active) && l == Life(Keys(active[i..]), 0)
    ensures Lived(l, Mark(active[i].device, Cancel, active[i].id, sequence)) == Life(Keys(active[i + 1..]), 0)
  {
    var a, rest := active[i], active[i + 1..];
    assert active[i..] == [a] + rest;
    assert a in active[i..];
    assert forall x :: x in active[i..] <==> x == a || x in rest;
    forall x | x in rest ensures x.id != a.id {
      var j :| 0 <= j < |rest| && rest[j] == x;
      assert active[i].id != active[i + 1 + j].id;
    }
  }

  lemma CancelOnePacket(h: Host, active: seq<Active>, i: nat, p: Packet, total: nat)
    requires i < |active| && Distinct(active) && h.life == Life(Keys(active[i..]), 0)
    requires p.marks == [Mark(active[i].device, Cancel, active[i].id, Wrap32(total + i))]
    ensures Replay(h, p).life == Life(Keys(active[i + 1..]), 0)
    ensures Replay(h, p).samples == Observe(h.samples, Wrap32(total + i))
  {
    hide Wrap32, Observe, Keys, Distinct;
    var m := p.marks[0];
    ReplayPacket(h, p);
    CancelOne(h.life, active, i, m.sequence);
    assert p.marks[..0] == [] && Sequences(p.marks) == [m.sequence] && [m.sequence][..0] == [];
    assert LivedAll(h.life, []) == h.life && ObserveAll(h.samples, []) == h.samples;
  }

  lemma {:induction false} CancelPrefix(h: Host, active: seq<Active>, batch: U32, next: U32, total: nat, i: nat)
    requires next == Wrap32(total) && i <= |active| && Distinct(active) && h.life == Life(Keys(active), 0)
    ensures var h' := ReplayAll(h, CancelPackets(active, batch, next)[..i]);
      h'.life == Life(Keys(active[i..]), 0) && h'.samples == ObserveAll(h.samples, Consecutive(total, i))
    decreases i
  {
    hide Wrap32, Observe, Keys, Distinct, Replay, CancelPackets;
    var packets := CancelPackets(active, batch, next);
    if i == 0 {
      assert active[0..] == active;
    } else {
      CancelPrefix(h, active, batch, next, total, i - 1);
      assert packets[..i][..i - 1] == packets[..i - 1];
      OffsetNumbers(total, i - 1);
      CancelOnePacket(ReplayAll(h, packets[..i - 1]), active, i - 1, packets[i - 1], total);
      assert Consecutive(total, i)[..i - 1] == Consecutive(total, i - 1);
    }
  }

  lemma {:induction false} ReplayMore(h: Host, a: seq<Packet>, b: seq<Packet>)
    ensures ReplayAll(h, a + b) == ReplayAll(ReplayAll(h, a), b)
  {
    hide Replay;
    if b == [] {
      assert a + b == a;
    } else {
      assert (a + b)[..|a + b| - 1] == a + b[..|b| - 1];
      ReplayMore(h, a, b[..|b| - 1]);
    }
  }

  lemma CancelReplays(w: World)
    requires Invariant(w)
    ensures var e, w' := w.engine, Apply(w, OnCancelAll);
      var h, h' := ReplayAll(w.host, w.queue), ReplayAll(w.host, w'.queue);
      h'.life == Life({}, 0) && h'.samples == ObserveAll(h.samples, Consecutive(|e.log|, |e.active|))
  {
    hide Wrap32, Replay, CancelPackets, Numbers;
    var e, n := w.engine, |w.engine.active|;
    var packets := CancelPackets(e.active, e.batch, e.next);
    ReplayMore(w.host, w.queue, packets);
    CancelPrefix(ReplayAll(w.host, w.queue), e.active, e.batch, e.next, |e.log|, n);
    assert packets[..n] == packets && e.active[n..] == [];
    assert Keys([]) == {};
  }

  lemma CancelKeeps(w: World)
    requires Invariant(w)
    ensures Invariant(Apply(w, OnCancelAll))
  {
    hide Wrap32, Replay, ReplayAll, CancelPackets, ObserveAll, Numbers, Consecutive;
    var e, n := w.engine, |w.engine.active|;
    var suffix := e.log[w.epoch..];
    CancelReplays(w);
    SuffixGrows(e.log, Repeat(true, n), w.epoch);
    NumbersGrow(suffix, w.epoch, true, n);
    ObserveMore(w.base, Numbers(suffix, w.epoch), Consecutive(|e.log|, n));
    OffsetNumbers(|e.log|, n);
    assert Keys([]) == {};
  }

  lemma InterruptKeeps(w: World)
    requires Invariant(w)
    ensures Invariant(Apply(w, Interrupt))
  {
    hide Wrap32, Replay;
    ErrorsGrowAll(w.host, w.queue);
    var log := w.engine.log;
    assert log[|log|..] == [];
    assert Keys([]) == {};
  }

  lemma DeliverKeeps(w: World)
    requires Invariant(w) && w.queue != []
    ensures Invariant(Apply(w, Deliver))
  {
    hide Wrap32, Replay, Keys, Distinct, Observe;
    ReplayFirst(w.host, w.queue);
  }

  lemma StepKeeps(w: World, step: Step)
    requires Invariant(w) && Allowed(w, step)
    ensures Invariant(Apply(w, step))
  {
    hide Agrees, Counts, Breaks, Belongs, Handle, Replay;
    match step
    case OnPointer(ev) =>
      EventKeepsAgreement(w, ev);
      EventKeepsCounts(w, ev);
    case OnCancelAll => CancelKeeps(w);
    case Deliver => DeliverKeeps(w);
    case Interrupt => InterruptKeeps(w);
  }

  lemma {:induction false} RunKeeps(w: World, steps: seq<Step>)
    requires Invariant(w) && AllowedRun(w, steps)
    ensures Invariant(Run(w, steps))
    decreases |steps|
  {
    hide Invariant, Apply, Allowed;
    if steps != [] {
      StepKeeps(w, steps[0]);
      RunKeeps(Apply(w, steps[0]), steps[1..]);
    }
  }

  /** Over every run of events that are not of the breaking kind, with cancellations and interruptions
      anywhere: the host never counts a lifecycle error; whenever nothing is on its way it holds exactly
      the browser's active pointers; and its gap counter has grown, since the last interruption, by
      exactly the numbers that were handed out and thrown away between two sent ones. */
  lemma EveryRunAgrees(steps: seq<Step>)
    requires AllowedRun(Start(), steps)
    ensures var w := Run(Start(), steps);
      && w.host.life.errors == 0
      && ReplayAll(w.host, w.queue).life == Life(Keys(w.engine.active), 0)
      && (w.queue == [] ==> w.host.life.active == Keys(w.engine.active))
      && w.epoch <= |w.engine.log|
      && (w.queue == [] && Dense(w.engine.log[w.epoch..]) ==>
            && w.host.samples.gaps == w.base.gaps + Missing(w.engine.log[w.epoch..])
            && w.host.samples.late == w.base.late)
  {
    hide Dense, Missing, Wrap32, Replay;
    StartHolds();
    RunKeeps(Start(), steps);
    var w := Run(Start(), steps);
    ErrorsGrowAll(w.host, w.queue);
    var suffix := w.engine.log[w.epoch..];
    if w.queue == [] && Dense(suffix) {
      GapsAreTheMissing(w.base, suffix, w.epoch);
    }
  }

  lemma StartHolds()
    ensures Invariant(Start())
  {
    assert Keys([]) == {};
    assert Start().engine.log[0..] == [];
  }
}
