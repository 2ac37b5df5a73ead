/** `PointerEngine`: browser pointer events become numbered batches of Down, Move, Up, Cancel and Hover
    samples. Of a position only whether it lies in the picture matters here. */
module PointerEngine {
  import opened Bytes
  import opened Protocol
  import opened Metrics

  datatype Source = PenSource | TouchSource | MouseSource | OtherSource
  datatype Kind = PointerDown | PointerMove | PointerUp | PointerCancel {
    predicate Ends() { PointerUp? || PointerCancel? }
  }

  /** One position report: an event itself or one of its coalesced events. `pressed` is whether the
      pressure is above zero, `inside` whether the point lies in the content rectangle. */
  datatype Point = Point(source: Source, id: U32, buttons: nat, pressed: bool, inside: bool)

  /** An event, and what the page answers while it is handled: the touch switch, whether the content
      rectangle is positive, whether the fit mode is "fit". */
  datatype Event = Event(
    kind: Kind, own: Point, coalesced: seq<Point>, touchEnabled: bool, rectPositive: bool, fit: bool)

  datatype Active = Active(id: U32, device: Device)

  /** `active` in the order of insertion; `log` records, for every sample number handed out, whether it
      was sent. */
  datatype Engine = Engine(
    active: seq<Active>, interrupted: set<U32>, batch: U32, next: U32, log: Log)

  function DeviceFor(s: Source): Device { match s case PenSource => Pen case MouseSource => Mouse case _ => Touch }

  function ActionFor(p: Point): Action {
    if (p.source.PenSource? || p.source.MouseSource?) && !p.pressed && p.buttons == 0 then Hover else Move
  }

  predicate IsActive(active: seq<Active>, id: U32) { exists a :: a in active && a.id == id }

  function Without(active: seq<Active>, id: U32): (r: seq<Active>)
    ensures forall a :: a in r <==> a in active && a.id != id
  {
    if active == [] then []
    else Without(active[..|active| - 1], id) + (if active[|active| - 1].id == id then [] else [active[|active| - 1]])
  }

  // ----- samples -----

  /** The points that become samples. */
  function Kept(ev: Event, points: seq<Point>, clamp: bool): (r: seq<Point>)
    ensures |r| <= |points| && forall p :: p in r ==> p in points
    ensures ev.rectPositive && clamp ==> r == points
    ensures !ev.rectPositive ==> r == []
  {
    if points == [] then []
    else
      var rest, p := Kept(ev, points[..|points| - 1], clamp), points[|points| - 1];
      if ev.rectPositive && (clamp || p.inside) then rest + [p] else rest
  }

  function Samples(points: seq<Point>, next: U32): (r: seq<Mark>)
    ensures |r| == |points|
    ensures forall i :: 0 <= i < |r| ==>
      r[i] == Mark(DeviceFor(points[i].source), ActionFor(points[i]), points[i].id, Wrap32(next + i))
  {
    seq(|points|, i requires 0 <= i < |points| =>
      Mark(DeviceFor(points[i].source), ActionFor(points[i]), points[i].id, Wrap32(next + i)))
  }

  /** The samples from `from` on turned into moves. */
  function AsMoves(marks: seq<Mark>, from: nat): (r: seq<Mark>)
    ensures |r| == |marks|
    ensures forall i :: 0 <= i < |r| ==> r[i] == if i < from then marks[i] else marks[i].(action := Move)
  {
    seq(|marks|, i requires 0 <= i < |marks| => if i < from then marks[i] else marks[i].(action := Move))
  }

  function WithAction(marks: seq<Mark>, i: nat, action: Action): (r: seq<Mark>)
    requires i < |marks|
    ensures |r| == |marks|
  {
    marks[i := marks[i].(action := action)]
  }

  // ----- one event -----

  predicate Ignored(e: Engine, ev: Event) {
    || ev.own.source.OtherSource?
    || ev.own.id in e.interrupted
    || (ev.own.source.TouchSource? && !ev.touchEnabled)
  }

  predicate Starts(e: Engine, ev: Event) {
    && !IsActive(e.active, ev.own.id)
    && (ev.kind.PointerDown? || (ev.kind.PointerMove? && (ev.own.buttons != 0 || ev.own.pressed)))
  }

  function PointsOf(ev: Event): seq<Point> { if ev.coalesced != [] then ev.coalesced else [ev.own] }

  function KeptPoints(e: Engine, ev: Event): seq<Point> {
    Kept(ev, PointsOf(ev), IsActive(e.active, ev.own.id) || !ev.fit)
  }

  /** The samples with their final actions; none when they are thrown away. */
  function WithActions(marks: seq<Mark>, kind: Kind, starts: bool, wasActive: bool): seq<Mark> {
    if starts then
      if marks == [] then [] else AsMoves(WithAction(marks, 0, Down), 1)
    else if kind.PointerDown? then AsMoves(marks, 0)
    else if kind.Ends() then
      if wasActive && marks != [] then
        WithAction(AsMoves(marks, 0), |marks| - 1, if kind.PointerUp? then Up else Cancel)
      else []
    else marks
  }

  function Outgoing(e: Engine, ev: Event): seq<Mark> {
    WithActions(Samples(KeptPoints(e, ev), e.next), ev.kind, Starts(e, ev), IsActive(e.active, ev.own.id))
  }

  function Repeat(b: bool, n: nat): (r: Log)
    ensures |r| == n && forall i :: 0 <= i < n ==> r[i] == b
  {
    seq(n, _ => b)
  }

  /** A packet, and whether encoding it threw. */
  datatype Sending = Nothing | Sent(packet: Packet) | Threw

  function Handle(e: Engine, ev: Event): (Engine, Sending) {
    if ev.own.source.OtherSource? then (e, Nothing)
    else if ev.own.id in e.interrupted then
      (if ev.kind.Ends() then e.(interrupted := e.interrupted - {ev.own.id}) else e, Nothing)
    else if Ignored(e, ev) then (e, Nothing)
    else Process(e, ev)
  }

  /** What happens to an event that is not ignored. */
  function Process(e: Engine, ev: Event): (Engine, Sending) {
    Dispatch(e, ev, |KeptPoints(e, ev)|, Outgoing(e, ev), Starts(e, ev))
  }

  /** The samples are sent, and the pointer is remembered or forgotten. */
  function Dispatch(e: Engine, ev: Event, numbered: nat, marks: seq<Mark>, starts: bool): (Engine, Sending) {
    var active := if starts && marks != [] then e.active + [Active(ev.own.id, DeviceFor(ev.own.source))] else e.active;
    var sends := 0 < |marks| <= MAX_SAMPLES;
    var e' := e.(active := active,
                 next := Wrap32(e.next + numbered),
                 batch := if marks == [] then e.batch else Wrap32(e.batch + 1),
                 log := e.log + Repeat(sends, numbered));
    if |marks| > MAX_SAMPLES then (e', Threw)
    else
      (if ev.kind.Ends() then e'.(active := Without(active, ev.own.id)) else e',
       if sends then Sent(Packet(e.batch, marks)) else Nothing)
  }

  /** `cancelAll`: one packet with one Cancel sample for every active pointer. */
  function CancelPackets(active: seq<Active>, batch: U32, next: U32): (r: seq<Packet>)
    ensures |r| == |active|
    ensures forall i :: 0 <= i < |r| ==>
      r[i] == Packet(Wrap32(batch + i), [Mark(active[i].device, Cancel, active[i].id, Wrap32(next + i))])
  {
    seq(|active|, i requires 0 <= i < |active| =>
      Packet(Wrap32(batch + i), [Mark(active[i].device, Cancel, active[i].id, Wrap32(next + i))]))
  }

  function Canceled(e: Engine): (Engine, seq<Packet>) {
    var n := |e.active|;
    (e.(active := [], batch := Wrap32(e.batch + n), next := Wrap32(e.next + n), log := e.log + Repeat(true, n)),
     CancelPackets(e.active, e.batch, e.next))
  }

  function Ids(active: seq<Active>): set<U32> { set a | a in active :: a.id }

  function Abandoned(e: Engine): Engine {
    e.(active := [], interrupted := e.interrupted + Ids(e.active))
  }

  // ----- the object -----

  class PointerEngine {
    var activePointers: seq<Active>
    var interruptedPointers: set<U32>
    var batchSequence: U32
    var sampleSequence: U32
    var log: Log
    /** What was handed to the transport. */
    var sent: seq<Packet>

    function State(): Engine
      reads this
    {
      Engine(activePointers, interruptedPointers, batchSequence, sampleSequence, log)
    }

    constructor ()
      ensures State() == Engine([], {}, 0, 0, []) && sent == []
    {
      activePointers, interruptedPointers, batchSequence, sampleSequence, log, sent := [], {}, 0, 0, [], [];
    }

    method NextSampleSequence() returns (sequence: U32)
      modifies this`sampleSequence
      ensures sequence == old(sampleSequence) && sampleSequence == Wrap32(sequence + 1)
    {
      sequence := sampleSequence;
      sampleSequence := Wrap32(sampleSequence + 1);
    }

    /** The batch number is used up even when the encoder refuses more than 512 samples. */
    method SendSamples(samples: seq<Mark>) returns (threw: bool)
      modifies this`batchSequence, this`sent
      ensures threw <==> |samples| > MAX_SAMPLES
      ensures batchSequence == Wrap32(old(batchSequence) + 1)
      ensures sent == if threw then old(sent) else old(sent) + [Packet(old(batchSequence), samples)]
    {
      var sequence := batchSequence;
      batchSequence := Wrap32(batchSequence + 1);
      if |samples| > MAX_SAMPLES { return true; }
      sent := sent + [Packet(sequence, samples)];
      return false;
    }

    /** `toSample` over the coalesced events, with the points that fall outside filtered out. */
    method ToSamples(ev: Event, points: seq<Point>, clamp: bool) returns (samples: array<Mark>)
      modifies this`sampleSequence
      ensures fresh(samples) && samples[..] == Samples(Kept(ev, points, clamp), old(sampleSequence))
      ensures sampleSequence == Wrap32(old(sampleSequence) + |Kept(ev, points, clamp)|)
    {
      hide Kept, Samples, Wrap32;
      var list: seq<Mark> := [];
      var i := 0;
      NothingKept(ev, clamp, sampleSequence);
      NumbersBegin(sampleSequence);
      while i < |points|
        invariant 0 <= i <= |points|
        invariant list == Samples(Kept(ev, points[..i], clamp), old(sampleSequence))
        invariant sampleSequence == Wrap32(old(sampleSequence) + |list|)
      {
        var p := points[i];
        OneMorePoint(ev, points, i, clamp, old(sampleSequence));
        if ev.rectPositive && (clamp || p.inside) {
          var sequence := NextSampleSequence();
          NumbersGoOn(old(sampleSequence), |list|);
          list := list + [Mark(DeviceFor(p.source), ActionFor(p), p.id, sequence)];
        }
        i := i + 1;
      }
      assert points[..i] == points;
      samples := new Mark[|list|](k requires 0 <= k < |list| => list[k]);
      assert samples[..] == list;
    }

    method MakeMoves(samples: array<Mark>, from: nat)
      modifies samples
      ensures samples[..] == AsMoves(old(samples[..]), from)
    {
      var i := from;
      while i < samples.Length
        invariant from <= i
        invariant forall k :: 0 <= k < i && k < samples.Length ==> samples[k] == AsMoves(old(samples[..]), from)[k]
        invariant forall k :: i <= k < samples.Length ==> samples[k] == old(samples[k])
      {
        samples[i] := samples[i].(action := Move);
        i := i + 1;
      }
    }

    method ChooseActions(list: array<Mark>, kind: Kind, starts: bool, wasActive: bool) returns (samples: seq<Mark>)
      modifies list
      ensures samples == WithActions(old(list[..]), kind, starts, wasActive)
      ensures |samples| == list.Length || samples == []
    {
      if starts {
        if list.Length > 0 {
          list[0] := list[0].(action := Down);
          MakeMoves(list, 1);
        }
      } else if kind.PointerDown? {
        MakeMoves(list, 0);
      } else if kind.Ends() {
        if wasActive && list.Length > 0 {
          MakeMoves(list, 0);
          var last := list.Length - 1;
          list[last] := list[last].(action := if kind.PointerUp? then Up else Cancel);
        } else {
          return [];
        }
      }
      return list[..];
    }

    method SendAndUpdate(ev: Event, numbered: nat, samples: seq<Mark>, starts: bool) returns (threw: bool)
      requires |samples| == numbered || samples == []
      modifies this`activePointers, this`batchSequence, this`sent, this`log
      ensures var (e', sending) := Dispatch(old(State()), ev, numbered, samples, starts);
        && State() == e'.(next := sampleSequence) && (threw <==> sending.Threw?)
        && sent == if sending.Sent? then old(sent) + [sending.packet] else old(sent)
    {
      hide Wrap32, Without;
      if starts && |samples| > 0 {
        activePointers := activePointers + [Active(ev.own.id, DeviceFor(ev.own.source))];
      }
      log := log + Repeat(0 < |samples| <= MAX_SAMPLES, numbered);
      if |samples| > 0 {
        threw := SendSamples(samples);
        if threw { return true; }
      }
      if ev.kind.Ends() { activePointers := Without(activePointers, ev.own.id); }
      return false;
    }

    method ProcessPointer(ev: Event) returns (threw: bool)
      modifies this
      ensures var (e', sending) := Process(old(State()), ev);
        && State() == e' && (threw <==> sending.Threw?)
        && sent == if sending.Sent? then old(sent) + [sending.packet] else old(sent)
    {
      hide Kept, Samples, Wrap32, WithActions, Without, IsActive, Dispatch;
      ghost var e := State();
      var actual := if ev.coalesced != [] then ev.coalesced else [ev.own];
      var wasActive := IsActive(activePointers, ev.own.id);
      var isContactMove := ev.kind.PointerMove? && (ev.own.buttons != 0 || ev.own.pressed) && !wasActive;
      var list := ToSamples(ev, actual, wasActive || !ev.fit);
      var starts := (ev.kind.PointerDown? && !wasActive) || isContactMove;
      var samples := ChooseActions(list, ev.kind, starts, wasActive);
      NumberedBefore(e, ev, list.Length, samples, starts, sampleSequence);
      threw := SendAndUpdate(ev, list.Length, samples, starts);
    }

    /** `handlePointer`. */
    method HandlePointer(ev: Event) returns (threw: bool)
      modifies this
      ensures var (e', sending) := Handle(old(State()), ev);
        && State() == e' && (threw <==> sending.Threw?)
        && sent == if sending.Sent? then old(sent) + [sending.packet] else old(sent)
    {
      hide Process;
      if ev.own.source.OtherSource? { return false; }
      if ev.own.id in interruptedPointers {
        if ev.kind.Ends() { interruptedPointers := interruptedPointers - {ev.own.id}; }
        return false;
      }
      if ev.own.source.TouchSource? && !ev.touchEnabled { return false; }
      threw := ProcessPointer(ev);
    }

    /** `cancelAll`. */
    method CancelAll()
      modifies this
      ensures State() == Canceled(old(State())).0 && sent == old(sent) + Canceled(old(State())).1
    {
      hide CancelPackets, Wrap32;
      ghost var e := State();
      var i := 0;
      NumbersBegin(e.next);
      NumbersBegin(e.batch);
      while i < |activePointers|
        invariant 0 <= i <= |activePointers| && activePointers == e.active && interruptedPointers == e.interrupted
        invariant batchSequence == Wrap32(e.batch + i) && sampleSequence == Wrap32(e.next + i) && log == e.log
        invariant sent == old(sent) + CancelPackets(e.active, e.batch, e.next)[..i]
      {
        var pointer := activePointers[i];
        var sequence := NextSampleSequence();
        NumbersGoOn(e.next, i);
        NumbersGoOn(e.batch, i);
        OneMorePacket(e.active, e.batch, e.next, i);
        var _ := SendSamples([Mark(pointer.device, Cancel, pointer.id, sequence)]);
        i := i + 1;
      }
      assert CancelPackets(e.active, e.batch, e.next)[..i] == CancelPackets(e.active, e.batch, e.next);
      log := log + Repeat(true, |activePointers|);
      activePointers := [];
    }

    /** `abandonAll`. */
    method AbandonAll()
      modifies this`activePointers, this`interruptedPointers
      ensures State() == Abandoned(old(State()))
    {
      var i := 0;
      while i < |activePointers|
        invariant 0 <= i <= |activePointers| && activePointers == old(activePointers)
        invariant interruptedPointers == old(interruptedPointers) + Ids(activePointers[..i])
      {
        assert activePointers[..i + 1] == activePointers[..i] + [activePointers[i]];
        interruptedPointers := interruptedPointers + {activePointers[i].id};
        i := i + 1;
      }
      assert activePointers[..i] == activePointers;
      activePointers := [];
    }
  }

  /** The numbers are taken before the rest happens, which does not depend on them. */
  lemma NumberedBefore(e: Engine, ev: Event, numbered: nat, marks: seq<Mark>, starts: bool, next: U32)
    requires next == Wrap32(e.next + numbered)
    ensures Dispatch(e.(next := next), ev, numbered, marks, starts).0.(next := next) == Dispatch(e, ev, numbered, marks, starts).0
    ensures Dispatch(e.(next := next), ev, numbered, marks, starts).1 == Dispatch(e, ev, numbered, marks, starts).1
  {
    hide Wrap32, Without;
  }

  lemma NothingKept(ev: Event, clamp: bool, next: U32)
    ensures Samples(Kept(ev, [], clamp), next) == []
  {
  }

  lemma OneMorePoint(ev: Event, points: seq<Point>, i: nat, clamp: bool, next: U32)
    requires i < |points|
    ensures var p, before := points[i], Kept(ev, points[..i], clamp);
      Samples(Kept(ev, points[..i + 1], clamp), next) == Samples(before, next) +
        if ev.rectPositive && (clamp || p.inside)
        then [Mark(DeviceFor(p.source), ActionFor(p), p.id, Wrap32(next + |before|))] else []
  {
    assert points[..i + 1][..i] == points[..i];
  }

  lemma OneMorePacket(active: seq<Active>, batch: U32, next: U32, i: nat)
    requires i < |active|
    ensures CancelPackets(active, batch, next)[..i + 1] == CancelPackets(active, batch, next)[..i] +
      [Packet(Wrap32(batch + i), [Mark(active[i].device, Cancel, active[i].id, Wrap32(next + i))])]
  {
  }

  lemma NumbersBegin(start: U32)
    ensures Wrap32(start + 0) == start
  {
  }

  lemma NumbersGoOn(start: U32, n: nat)
    ensures Wrap32(Wrap32(start + n) + 1) == Wrap32(start + n + 1)
  {
    SumOfRemainder(start + n);
  }
}
