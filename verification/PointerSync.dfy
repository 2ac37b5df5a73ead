/** The two ends of pointer input together: what one browser event does to the host's view of the
    pointers, exactly when it keeps the two views in step, and what holds after any run. */
module PointerSync {
  import opened Bytes
  import opened Protocol
  import opened Metrics
  import opened PointerEngine

  function Keys(active: seq<Active>): set<Pointer> { set a | a in active :: (a.device, a.id) }

  predicate Distinct(active: seq<Active>) { forall i, j :: 0 <= i < j < |active| ==> active[i].id != active[j].id }

  /** Coalesced events belong to the pointer of their event, and a pointer keeps its device type. */
  predicate Belongs(e: Engine, ev: Event) {
    && (forall p :: p in ev.coalesced ==> p.id == ev.own.id && p.source == ev.own.source)
    && (forall a :: a in e.active && a.id == ev.own.id ==> a.device == DeviceFor(ev.own.source))
  }

  /** Some of the points say that the pointer touches. */
  predicate Claims(points: seq<Point>) { exists p :: p in points && ActionFor(p).Move? }

  /** The events after which the host no longer agrees: an active pointer ends while the content
      rectangle is not positive, a stroke begins with more than 512 samples, or a pointer that is not
      down moves with samples that claim contact. */
  predicate Breaks(e: Engine, ev: Event) {
    && !Ignored(e, ev)
    && var kept, wasActive := KeptPoints(e, ev), IsActive(e.active, ev.own.id);
       || (ev.kind.Ends() && wasActive && !ev.rectPositive)
       || (Starts(e, ev) && |kept| > MAX_SAMPLES)
       || (ev.kind.PointerMove? && !wasActive && !Starts(e, ev) && |kept| <= MAX_SAMPLES && Claims(kept))
  }

  // ----- lifecycles of one pointer -----

  predicate AllOf(marks: seq<Mark>, key: Pointer) { forall m :: m in marks ==> (m.device, m.id) == key }
  predicate OnlyMoves(marks: seq<Mark>) { forall m :: m in marks ==> m.action.Move? || m.action.Hover? }
  predicate Touches(marks: seq<Mark>) { exists m :: m in marks && m.action.Move? }

  lemma {:induction false} MovesKeep(l: Life, marks: seq<Mark>, key: Pointer)
    requires AllOf(marks, key) && OnlyMoves(marks) && key in l.active
    ensures LivedAll(l, marks) == l
  {
    if marks != [] {
      MovesKeep(l, marks[..|marks| - 1], key);
      assert marks[|marks| - 1] in marks;
    }
  }

  lemma {:induction false} StrayMoves(l: Life, marks: seq<Mark>, key: Pointer)
    requires AllOf(marks, key) && OnlyMoves(marks) && key !in l.active
    ensures LivedAll(l, marks).active == l.active
    ensures LivedAll(l, marks).errors >= l.errors
    ensures LivedAll(l, marks).errors == l.errors <==> !Touches(marks)
  {
    if marks != [] {
      var front, last := marks[..|marks| - 1], marks[|marks| - 1];
      StrayMoves(l, front, key);
      assert last in marks;
      assert forall m :: m in marks <==> m in front || m == last;
    }
  }

  lemma {:induction false} LivedFirst(l: Life, m: Mark, rest: seq<Mark>)
    ensures LivedAll(l, [m] + rest) == LivedAll(Lived(l, m), rest)
  {
    var all := [m] + rest;
    if rest == [] {
      assert all[..0] == [];
      assert LivedAll(l, []) == l;
    } else {
      assert all[..|all| - 1] == [m] + rest[..|rest| - 1];
      LivedFirst(l, m, rest[..|rest| - 1]);
    }
  }

  lemma StrokeBegins(l: Life, marks: seq<Mark>, key: Pointer)
    requires marks != [] && AllOf(marks, key) && marks[0].action.Down? && OnlyMoves(marks[1..]) && key !in l.active
    ensures LivedAll(l, marks) == Life(l.active + {key}, l.errors)
  {
    assert marks == [marks[0]] + marks[1..];
    assert marks[0] in marks;
    LivedFirst(l, marks[0], marks[1..]);
    MovesKeep(Life(l.active + {key}, l.errors), marks[1..], key);
  }

  lemma StrokeEnds(l: Life, marks: seq<Mark>, key: Pointer)
    requires marks != [] && AllOf(marks, key) && marks[|marks| - 1].action.IsTerminal()
    requires OnlyMoves(marks[..|marks| - 1]) && key in l.active
    ensures LivedAll(l, marks) == Life(l.active - {key}, l.errors)
  {
    MovesKeep(l, marks[..|marks| - 1], key);
    assert marks[|marks| - 1] in marks;
  }

  // ----- one event -----

  function KeyOf(ev: Event): Pointer { (DeviceFor(ev.own.source), ev.own.id) }

  lemma SamplesBelong(e: Engine, ev: Event)
    requires Belongs(e, ev)
    ensures var marks := Samples(KeptPoints(e, ev), e.next);
      AllOf(marks, KeyOf(ev)) && OnlyMoves(marks) && (Touches(marks) <==> Claims(KeptPoints(e, ev)))
  {
    hide KeptPoints, Touches, Claims;
    var kept := KeptPoints(e, ev);
    var marks := Samples(kept, e.next);
    forall m | m in marks ensures (m.device, m.id) == KeyOf(ev) && (m.action.Move? || m.action.Hover?) {
      var i :| 0 <= i < |marks| && marks[i] == m;
      KeptBelong(e, ev, kept[i]);
    }
    TouchesIff(kept, e.next);
  }

  lemma KeptBelong(e: Engine, ev: Event, p: Point)
    requires Belongs(e, ev) && p in KeptPoints(e, ev)
    ensures p.id == ev.own.id && p.source == ev.own.source
  {
    assert p in PointsOf(ev);
  }

  lemma TouchesIff(points: seq<Point>, next: U32)
    ensures Touches(Samples(points, next)) <==> Claims(points)
  {
    var marks := Samples(points, next);
    if p :| p in points && ActionFor(p).Move? {
      var i :| 0 <= i < |points| && points[i] == p;
      assert marks[i] in marks;
    }
    if m :| m in marks && m.action.Move? {
      var i :| 0 <= i < |marks| && marks[i] == m;
      assert points[i] in points;
    }
  }

  lemma ActiveKey(e: Engine, ev: Event)
    requires Belongs(e, ev)
    ensures IsActive(e.active, ev.own.id) <==> KeyOf(ev) in Keys(e.active)
  {
  }

  lemma Begun(active: seq<Active>, a: Active)
    requires Distinct(active) && !IsActive(active, a.id)
    ensures Keys(active + [a]) == Keys(active) + {(a.device, a.id)} && Distinct(active + [a])
  {
    assert forall x :: x in active + [a] <==> x in active || x == a;
  }

  lemma {:induction false} DistinctWithout(active: seq<Active>, id: U32)
    requires Distinct(active)
    ensures Distinct(Without(active, id))
    ensures !IsActive(active, id) ==> Without(active, id) == active
  {
    hide Distinct, IsActive;
    if active != [] {
      var front, last := active[..|active| - 1], active[|active| - 1];
      LastIsNew(active);
      DistinctFront(active);
      DistinctWithout(front, id);
      ActiveOnce(active, id);
      if last.id != id {
        NewAtEnd(Without(front, id), last);
        assert active == front + [last];
      } else {
        assert Without(active, id) == Without(front, id);
      }
    }
  }

  lemma ActiveOnce(active: seq<Active>, id: U32)
    requires active != []
    ensures IsActive(active, id) <==> IsActive(active[..|active| - 1], id) || active[|active| - 1].id == id
  {
    var front, last := active[..|active| - 1], active[|active| - 1];
    assert active == front + [last] && last in active;
  }

  lemma DistinctFront(active: seq<Active>)
    requires Distinct(active) && active != []
    ensures Distinct(active[..|active| - 1])
  {
  }

  lemma LastIsNew(active: seq<Active>)
    requires Distinct(active) && active != []
    ensures forall a :: a in active[..|active| - 1] ==> a.id != active[|active| - 1].id
  {
  }

  lemma NewAtEnd(active: seq<Active>, last: Active)
    requires Distinct(active) && forall a :: a in active ==> a.id != last.id
    ensures Distinct(active + [last])
  {
  }

  lemma Ended(e: Engine, ev: Event)
    requires Belongs(e, ev)
    ensures Keys(Without(e.active, ev.own.id)) == Keys(e.active) - {KeyOf(ev)}
  {
    var rest := Without(e.active, ev.own.id);
    forall k | k in Keys(e.active) - {KeyOf(ev)} ensures k in Keys(rest) {
      var a :| a in e.active && (a.device, a.id) == k;
      assert a in rest;
    }
  }

  /** What the host makes of what an event sent. */
  function Heard(l: Life, s: Sending): Life { if s.Sent? then LivedAll(l, s.packet.marks) else l }

  predicate InStep(l: Life, e: Engine, errors: nat) { l == Life(Keys(e.active), errors) }

  lemma BeginningIff(e: Engine, ev: Event, l: Life)
    requires Distinct(e.active) && Belongs(e, ev) && l.active == Keys(e.active) && !Ignored(e, ev) && Starts(e, ev)
    ensures var (e', s) := Process(e, ev); InStep(Heard(l, s), e', l.errors) <==> |KeptPoints(e, ev)| <= MAX_SAMPLES
    ensures Distinct(Process(e, ev).0.active)
  {
    hide KeptPoints, Keys, Distinct, Belongs, IsActive, Without;
    SamplesBelong(e, ev);
    ActiveKey(e, ev);
    Begun(e.active, Active(ev.own.id, DeviceFor(ev.own.source)));
    var samples, marks := Samples(KeptPoints(e, ev), e.next), Outgoing(e, ev);
    assert forall i :: 0 <= i < |marks| ==> samples[i] in samples;
    if 0 < |marks| <= MAX_SAMPLES {
      StrokeBegins(l, marks, KeyOf(ev));
    }
  }

  lemma EndingSamples(e: Engine, ev: Event)
    requires Belongs(e, ev) && ev.kind.Ends() && IsActive(e.active, ev.own.id)
    ensures var marks := Outgoing(e, ev);
      && (marks == [] <==> !ev.rectPositive) && AllOf(marks, KeyOf(ev))
      && (marks != [] ==> marks[|marks| - 1].action.IsTerminal() && OnlyMoves(marks[..|marks| - 1]))
  {
    hide Belongs, IsActive;
    SamplesBelong(e, ev);
    var samples, marks := Samples(KeptPoints(e, ev), e.next), Outgoing(e, ev);
    forall i | 0 <= i < |marks| ensures (marks[i].device, marks[i].id) == KeyOf(ev) {
      assert samples[i] in samples;
    }
  }

  lemma EndingIff(e: Engine, ev: Event, l: Life)
    requires Distinct(e.active) && Belongs(e, ev) && l.active == Keys(e.active) && !Ignored(e, ev)
    requires ev.kind.Ends() && IsActive(e.active, ev.own.id)
    ensures var (e', s) := Process(e, ev); InStep(Heard(l, s), e', l.errors) <==> ev.rectPositive
    ensures Distinct(Process(e, ev).0.active)
  {
    hide Keys, Distinct, Belongs, IsActive, Without, Outgoing, KeptPoints;
    EndingSamples(e, ev);
    ActiveKey(e, ev);
    Ended(e, ev);
    DistinctWithout(e.active, ev.own.id);
    var marks := Outgoing(e, ev);
    if 0 < |marks| <= MAX_SAMPLES {
      StrokeEnds(l, marks, KeyOf(ev));
    }
  }

  lemma StrayEndIsInStep(e: Engine, ev: Event, l: Life)
    requires Distinct(e.active) && Belongs(e, ev) && l.active == Keys(e.active) && !Ignored(e, ev)
    requires ev.kind.Ends() && !IsActive(e.active, ev.own.id)
    ensures var (e', s) := Process(e, ev); InStep(Heard(l, s), e', l.errors) && Distinct(e'.active)
  {
    hide Keys, Distinct, Belongs, IsActive, Without;
    DistinctWithout(e.active, ev.own.id);
  }

  lemma MovingIff(e: Engine, ev: Event, l: Life)
    requires Distinct(e.active) && Belongs(e, ev) && l.active == Keys(e.active) && !Ignored(e, ev)
    requires !ev.kind.Ends() && !Starts(e, ev)
    ensures var (e', s) := Process(e, ev);
      InStep(Heard(l, s), e', l.errors) <==>
        IsActive(e.active, ev.own.id) || |KeptPoints(e, ev)| > MAX_SAMPLES
        || !Claims(KeptPoints(e, ev))
    ensures Process(e, ev).0.active == e.active
  {
    hide KeptPoints, Keys, Distinct, Belongs, IsActive, Without;
    SamplesBelong(e, ev);
    ActiveKey(e, ev);
    var samples, marks := Samples(KeptPoints(e, ev), e.next), Outgoing(e, ev);
    assert forall i :: 0 <= i < |marks| ==> samples[i] in samples;
    if 0 < |marks| <= MAX_SAMPLES {
      if IsActive(e.active, ev.own.id) {
        MovesKeep(l, marks, KeyOf(ev));
      } else {
        StrayMoves(l, marks, KeyOf(ev));
      }
    } else if marks == [] {
      assert KeptPoints(e, ev) == [];
    }
  }

  /** An event keeps the host's view of the pointers equal to the browser's, without an error, exactly
      unless it is one of the breaking ones. */
  lemma InStepIff(e: Engine, ev: Event, l: Life)
    requires Distinct(e.active) && Belongs(e, ev) && l.active == Keys(e.active)
    ensures var (e', s) := Handle(e, ev);
      Distinct(e'.active) && (InStep(Heard(l, s), e', l.errors) <==> !Breaks(e, ev))
  {
    hide Process, Keys, Distinct, Belongs, KeptPoints;
    if Ignored(e, ev) {
    } else if Starts(e, ev) {
      BeginningIff(e, ev, l);
    } else if ev.kind.Ends() {
      if IsActive(e.active, ev.own.id) { EndingIff(e, ev, l); } else { StrayEndIsInStep(e, ev, l); }
    } else {
      MovingIff(e, ev, l);
    }
  }

  // ----- one breaking event of each kind -----

  const NEW_ENGINE := Engine([], {}, 0, 0, [])
  const NO_LIFE := Life({}, 0)

  lemma OneKept(e: Engine, ev: Event)
    requires ev.coalesced == [] && ev.rectPositive && !ev.fit
    ensures KeptPoints(e, ev) == [ev.own]
  {
  }

  /** A finger goes down. */
  function FingerDown(id: U32): Event {
    Event(PointerDown, Point(TouchSource, id, 1, true, true), [], true, true, false)
  }

  lemma FingerGoesDown(id: U32)
    ensures var (e, s) := Handle(NEW_ENGINE, FingerDown(id));
      && e.active == [Active(id, Touch)] && e.interrupted == {}
      && s.Sent? && s.packet.marks == [Mark(Touch, Down, id, 0)]
      && Heard(NO_LIFE, s) == Life({(Touch, id)}, 0)
  {
    OneKept(NEW_ENGINE, FingerDown(id));
    var marks := [Mark(Touch, Down, id, 0)];
    assert Outgoing(NEW_ENGINE, FingerDown(id)) == marks;
    assert marks[..0] == [] && LivedAll(NO_LIFE, []) == NO_LIFE;
    assert {} + {(Touch, id)} == {(Touch, id)};
  }

  lemma EndWithoutPicture(e: Engine, id: U32, up: Event)
    requires e.active == [Active(id, Touch)] && e.interrupted == {}
    requires up == FingerDown(id).(kind := PointerUp, rectPositive := false)
    ensures Belongs(e, up) && Breaks(e, up) && Handle(e, up).1.Nothing? && Handle(e, up).0.active == []
  {
    hide Starts, Kept;
    assert e.active[0] in e.active;
    NothingLeft(e.active, id);
    NoStartAtAnEnd(e, up);
    OutgoingCount(e, up);
  }

  /** The finger is lifted while the picture has no extent: the browser forgets it, the host never hears of
      it. */
  lemma AnEndIsMissed(id: U32)
    ensures var e := Handle(NEW_ENGINE, FingerDown(id)).0;
      var up := FingerDown(id).(kind := PointerUp, rectPositive := false);
      && Belongs(e, up) && Breaks(e, up)
      && Handle(e, up).1.Nothing? && Handle(e, up).0.active == []
  {
    FingerGoesDown(id);
    hide Handle, Breaks, Belongs;
    EndWithoutPicture(Handle(NEW_ENGINE, FingerDown(id)).0, id, FingerDown(id).(kind := PointerUp, rectPositive := false));
  }

  lemma NothingLeft(active: seq<Active>, id: U32)
    requires forall a :: a in active ==> a.id == id
    ensures Without(active, id) == []
  {
    FirstIsIn(Without(active, id));
  }

  lemma FirstIsIn(active: seq<Active>)
    ensures active != [] ==> exists a :: a in active
  {
    if active != [] { assert active[0] in active; }
  }

  /** A finger goes down with 513 coalesced points: encoding throws, and the host never hears of it. */
  lemma ALongBeginningIsMissed(id: U32)
    ensures var down := FingerDown(id).(coalesced := seq(513, _ => FingerDown(id).own));
      && Belongs(NEW_ENGINE, down) && Breaks(NEW_ENGINE, down)
      && Handle(NEW_ENGINE, down).1.Threw? && Handle(NEW_ENGINE, down).0.active == [Active(id, Touch)]
  {
    var down := FingerDown(id).(coalesced := seq(513, _ => FingerDown(id).own));
    assert |KeptPoints(NEW_ENGINE, down)| == 513;
    hide KeptPoints;
    OutgoingCount(NEW_ENGINE, down);
  }

  /** A mouse without a pressed button moves, and a coalesced point says that a button was pressed: the host
      is told of a move of a pointer that is not down. */
  lemma AStrayMoveIsAnError(id: U32)
    ensures var own := Point(MouseSource, id, 0, false, true);
      var move := Event(PointerMove, own, [own.(buttons := 1)], true, true, false);
      var (e, s) := Handle(NEW_ENGINE, move);
      Belongs(NEW_ENGINE, move) && Breaks(NEW_ENGINE, move) && e.active == [] && Heard(NO_LIFE, s) == Life({}, 1)
  {
    var own := Point(MouseSource, id, 0, false, true);
    var move := Event(PointerMove, own, [own.(buttons := 1)], true, true, false);
    assert KeptPoints(NEW_ENGINE, move) == [own.(buttons := 1)];
    assert own.(buttons := 1) in KeptPoints(NEW_ENGINE, move);
    var marks := [Mark(Mouse, Move, id, 0)];
    assert Outgoing(NEW_ENGINE, move) == marks;
    assert marks[..0] == [] && LivedAll(NO_LIFE, []) == NO_LIFE;
  }

  // ----- what an event does to its pointer -----

  lemma StartsWhenInactive(e: Engine, ev: Event)
    ensures Starts(e, ev) ==> !IsActive(e.active, ev.own.id)
  {
  }

  lemma NowActive(active: seq<Active>, a: Active)
    ensures IsActive(active + [a], a.id)
  {
    assert a in active + [a];
  }

  lemma NowInactive(active: seq<Active>, id: U32)
    ensures !IsActive(Without(active, id), id)
  {
  }

  /** When a pointer is down after an event of its own: a down or a contact move takes it down as soon as
      one of its points is in the picture; an up or a cancel lifts it unless it carries more than 512
      samples; and an ignored event changes nothing. */
  lemma DownAfterIff(e: Engine, ev: Event)
    ensures var (e', s) := Handle(e, ev);
      var down, count := IsActive(e.active, ev.own.id), |KeptPoints(e, ev)|;
      IsActive(e'.active, ev.own.id) <==>
        if Ignored(e, ev) then down
        else if ev.kind.Ends() then down && count > MAX_SAMPLES
        else down || (Starts(e, ev) && count > 0)
  {
    hide KeptPoints, IsActive, Without, Starts;
    StartsWhenInactive(e, ev);
    NowActive(e.active, Active(ev.own.id, DeviceFor(ev.own.source)));
    NowInactive(e.active, ev.own.id);
    NoStartAtAnEnd(e, ev);
    OutgoingCount(e, ev);
  }

  lemma NoStartAtAnEnd(e: Engine, ev: Event)
    ensures Starts(e, ev) ==> !ev.kind.Ends()
  {
  }

  /** Every point that normalises becomes a sample of the batch, except those of an up or a cancel of a
      pointer that is not down. */
  lemma OutgoingCount(e: Engine, ev: Event)
    ensures |Outgoing(e, ev)| ==
      if ev.kind.Ends() && !IsActive(e.active, ev.own.id) then 0 else |KeptPoints(e, ev)|
  {
    hide KeptPoints, IsActive;
    StartsWhenInactive(e, ev);
    NoStartAtAnEnd(e, ev);
  }

  /** A batch goes out exactly if it has samples and not more than 512. */
  lemma SentIff(e: Engine, ev: Event)
    ensures var s := Handle(e, ev).1;
      var stray := ev.kind.Ends() && !IsActive(e.active, ev.own.id);
      && (s.Sent? <==> !Ignored(e, ev) && !stray && 0 < |KeptPoints(e, ev)| <= MAX_SAMPLES)
      && (s.Sent? ==> s.packet.sequence == e.batch && |s.packet.marks| == |KeptPoints(e, ev)|)
  {
    hide KeptPoints, IsActive, Without, Starts, Outgoing;
    OutgoingCount(e, ev);
  }
}
