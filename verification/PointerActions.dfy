/** What the samples of a sent packet say, in terms of the browser event and its points only, and where the ends of
    strokes come from over every run. */
module PointerActions {
  import opened Bytes
  import opened Protocol
  import opened Metrics
  import opened PointerEngine
  import opened PointerSync
  import PointerSystem

  /** A pen or a mouse near the surface, without pressure and without a button. */
  predicate Hovers(p: Point) { (p.source.PenSource? || p.source.MouseSource?) && !p.pressed && p.buttons == 0 }

  /** The event takes its pointer down. */
  predicate Presses(e: Engine, ev: Event) {
    && !(exists a :: a in e.active && a.id == ev.own.id)
    && (ev.kind.PointerDown? || (ev.kind.PointerMove? && (ev.own.buttons != 0 || ev.own.pressed)))
  }

  /** The action of sample i of n, which comes from point p. */
  predicate Tells(e: Engine, ev: Event, i: nat, n: nat, p: Point, action: Action) {
    if Presses(e, ev) then action == if i == 0 then Down else Move
    else
      match ev.kind
      case PointerDown => action == Move
      case PointerUp => action == if i + 1 == n then Up else Move
      case PointerCancel => action == if i + 1 == n then Cancel else Move
      case PointerMove => action == if Hovers(p) then Hover else Move
  }

  /** One sample for each point that normalises, in their order, with its device, its pointer and the next number;
      a stroke begins with one Down, the lifting of an active pointer ends with Up and its cancellation with
      Cancel, and everything else moves or hovers. */
  lemma SentIsTold(e: Engine, ev: Event)
    requires Handle(e, ev).1.Sent?
    ensures var marks, kept := Handle(e, ev).1.packet.marks, KeptPoints(e, ev);
      && |marks| == |kept|
      && forall i :: 0 <= i < |marks| ==>
           && marks[i].device == (match kept[i].source case PenSource => Pen case MouseSource => Mouse case _ => Touch)
           && marks[i].id == kept[i].id && marks[i].sequence == (e.next + i) % TWO32
           && Tells(e, ev, i, |marks|, kept[i], marks[i].action)
  {
    hide KeptPoints;
  }

  /** In particular the end of an active pointer. */
  lemma EndsAreTold(e: Engine, ev: Event)
    requires Handle(e, ev).1.Sent? && ev.kind.Ends()
    ensures var marks := Handle(e, ev).1.packet.marks;
      && IsActive(e.active, ev.own.id) && marks != []
      && marks[|marks| - 1].action == (if ev.kind.PointerUp? then Up else Cancel)
      && forall i :: 0 <= i < |marks| - 1 ==> marks[i].action == Move
  {
    hide KeptPoints;
  }

  /** A point normalises if the rectangle is positive and the point is in the picture, or is taken along because
      its pointer is down or the picture fills the view. */
  lemma {:induction false} KeptIff(ev: Event, points: seq<Point>, clamp: bool, p: Point)
    ensures p in Kept(ev, points, clamp) <==> p in points && ev.rectPositive && (clamp || p.inside)
  {
    if points != [] {
      var front, last := points[..|points| - 1], points[|points| - 1];
      KeptIff(ev, front, clamp, p);
      assert points == front + [last];
    }
  }

  lemma KeptPointsIff(e: Engine, ev: Event, p: Point)
    ensures p in KeptPoints(e, ev) <==>
      && p in (if ev.coalesced == [] then [ev.own] else ev.coalesced)
      && ev.rectPositive && (!ev.fit || p.inside || exists a :: a in e.active && a.id == ev.own.id)
  {
    KeptIff(ev, PointsOf(ev), IsActive(e.active, ev.own.id) || !ev.fit, p);
  }

  /** When an event sends a packet: it is of a pen, a mouse or an enabled touch, its pointer was not interrupted,
      some of its points normalise and not more than 512, and if it ends a stroke there is one. */
  lemma SentIffHeard(e: Engine, ev: Event)
    ensures Handle(e, ev).1.Sent? <==>
      && !ev.own.source.OtherSource? && (ev.own.source.TouchSource? ==> ev.touchEnabled)
      && ev.own.id !in e.interrupted && 0 < |KeptPoints(e, ev)| <= 512
      && (ev.kind.PointerUp? || ev.kind.PointerCancel? ==> exists a :: a in e.active && a.id == ev.own.id)
  {
    hide KeptPoints, Without, Starts, Outgoing;
    OutgoingCount(e, ev);
  }

  // ----- interrupted pointers -----

  /** The event ends its pointer. */
  predicate EndsPointer(ev: Event, id: U32) {
    !ev.own.source.OtherSource? && ev.own.id == id && (ev.kind.PointerUp? || ev.kind.PointerCancel?)
  }

  /** A pointer is interrupted by an abandonment while it is down, and until an event ends it. */
  lemma InterruptedIff(e: Engine, ev: Event, id: U32)
    ensures id in Handle(e, ev).0.interrupted <==> id in e.interrupted && !EndsPointer(ev, id)
    ensures id in Abandoned(e).interrupted <==> id in e.interrupted || IsActive(e.active, id)
    ensures id in Canceled(e).0.interrupted <==> id in e.interrupted
  {
    hide KeptPoints, Outgoing;
  }

  lemma InterruptedIsSilent(e: Engine, ev: Event)
    requires ev.own.id in e.interrupted
    ensures Handle(e, ev).1.Nothing? && Handle(e, ev).0.active == e.active
  {
  }

  // ----- over every run -----

  /** A step that may queue the end of this pointer. */
  predicate Causes(step: PointerSystem.Step, m: Mark) {
    match m.action
    case Cancel => step.OnCancelAll? || (step.OnPointer? && step.ev.kind.PointerCancel? && step.ev.own.id == m.id)
    case Up => step.OnPointer? && step.ev.kind.PointerUp? && step.ev.own.id == m.id
    case Down => step.OnPointer? && (step.ev.kind.PointerDown? || step.ev.kind.PointerMove?) && step.ev.own.id == m.id
    case Hover => step.OnPointer? && step.ev.kind.PointerMove? && step.ev.own.id == m.id
    case Move => step.OnPointer? && step.ev.own.id == m.id
  }

  lemma EventCauses(w: PointerSystem.World, ev: Event, m: Mark)
    requires PointerSystem.Allowed(w, PointerSystem.OnPointer(ev))
    requires Handle(w.engine, ev).1.Sent? && m in Handle(w.engine, ev).1.packet.marks
    ensures Causes(PointerSystem.OnPointer(ev), m)
  {
    hide KeptPoints, Handle, Presses, Breaks;
    var marks := Handle(w.engine, ev).1.packet.marks;
    SentIsTold(w.engine, ev);
    var i :| 0 <= i < |marks| && marks[i] == m;
    KeptBelong(w.engine, ev, KeptPoints(w.engine, ev)[i]);
    PressesAtADown(w.engine, ev);
  }

  lemma PressesAtADown(e: Engine, ev: Event)
    ensures Presses(e, ev) ==> ev.kind.PointerDown? || ev.kind.PointerMove?
  {
  }

  lemma StepCauses(w: PointerSystem.World, step: PointerSystem.Step, p: Packet, m: Mark)
    requires PointerSystem.Allowed(w, step)
    requires p in PointerSystem.Apply(w, step).queue && p !in w.queue && m in p.marks
    ensures Causes(step, m)
  {
    hide Handle, Breaks, Belongs;
    match step
    case OnPointer(ev) => EventCauses(w, ev, m);
    case OnCancelAll =>
      var packets := Canceled(w.engine).1;
      var i :| 0 <= i < |packets| && packets[i] == p;
    case Deliver =>
    case Interrupt =>
  }

  /** Whatever a queued sample says was said by an event of its pointer of the right kind: an Up by a PointerUp, a
      Cancel by a PointerCancel or by `cancelAll`. */
  lemma {:induction false} QueuedIsCaused(w: PointerSystem.World, steps: seq<PointerSystem.Step>, p: Packet, m: Mark)
    requires PointerSystem.AllowedRun(w, steps) && w.queue == []
    requires p in PointerSystem.Run(w, steps).queue && m in p.marks
    ensures exists k :: 0 <= k < |steps| && Causes(steps[k], m)
  {
    QueuedOrCaused(w, steps, p, m);
  }

  lemma {:induction false} QueuedOrCaused(w: PointerSystem.World, steps: seq<PointerSystem.Step>, p: Packet, m: Mark)
    requires PointerSystem.AllowedRun(w, steps)
    requires p in PointerSystem.Run(w, steps).queue && m in p.marks
    ensures p in w.queue || exists k :: 0 <= k < |steps| && Causes(steps[k], m)
    decreases |steps|
  {
    hide PointerSystem.Allowed, PointerSystem.Apply, Causes;
    if steps != [] {
      var w1 := PointerSystem.Apply(w, steps[0]);
      QueuedOrCaused(w1, steps[1..], p, m);
      if p in w1.queue {
        if p !in w.queue {
          StepCauses(w, steps[0], p, m);
          assert Causes(steps[0], m);
        }
      } else {
        var k :| 0 <= k < |steps[1..]| && Causes(steps[1..][k], m);
        assert Causes(steps[k + 1], m);
      }
    }
  }

  // ----- interrupted pointers over every run -----

  predicate EndsIt(step: PointerSystem.Step, id: U32) { step.OnPointer? && EndsPointer(step.ev, id) }

  predicate SaysNothingOf(queue: seq<Packet>, id: U32) { forall p, m :: p in queue && m in p.marks ==> m.id != id }

  lemma StepIsSilent(w: PointerSystem.World, step: PointerSystem.Step, id: U32)
    requires PointerSystem.Allowed(w, step) && !EndsIt(step, id)
    requires id in w.engine.interrupted && !IsActive(w.engine.active, id) && SaysNothingOf(w.queue, id)
    ensures var w' := PointerSystem.Apply(w, step);
      id in w'.engine.interrupted && !IsActive(w'.engine.active, id) && SaysNothingOf(w'.queue, id)
  {
    hide Breaks, KeptPoints, Belongs;
    match step
    case OnPointer(ev) =>
      InterruptedIff(w.engine, ev, id);
      if ev.own.id == id { InterruptedIsSilent(w.engine, ev); } else { OthersStayInactive(w.engine, ev, id); }
      if Handle(w.engine, ev).1.Sent? {
        forall m | m in Handle(w.engine, ev).1.packet.marks ensures m.id == ev.own.id { MarkIsOwn(w, ev, m); }
      }
    case OnCancelAll =>
      forall p, m | p in Canceled(w.engine).1 && m in p.marks ensures m.id != id {
        var i :| 0 <= i < |w.engine.active| && Canceled(w.engine).1[i] == p;
        assert w.engine.active[i] in w.engine.active;
      }
    case Deliver =>
    case Interrupt =>
  }

  lemma MarkIsOwn(w: PointerSystem.World, ev: Event, m: Mark)
    requires PointerSystem.Allowed(w, PointerSystem.OnPointer(ev))
    requires Handle(w.engine, ev).1.Sent? && m in Handle(w.engine, ev).1.packet.marks
    ensures m.id == ev.own.id
  {
    hide KeptPoints, Handle, Presses, Breaks;
    var marks := Handle(w.engine, ev).1.packet.marks;
    SentIsTold(w.engine, ev);
    var i :| 0 <= i < |marks| && marks[i] == m;
    KeptBelong(w.engine, ev, KeptPoints(w.engine, ev)[i]);
  }

  lemma OthersStayInactive(e: Engine, ev: Event, id: U32)
    requires ev.own.id != id && !IsActive(e.active, id)
    ensures !IsActive(Handle(e, ev).0.active, id)
  {
    hide KeptPoints, Outgoing, Starts;
  }

  /** Once interrupted, a pointer stays interrupted and nothing is said of it, until an event ends it. */
  lemma {:induction false} SilentUntilItEnds(w: PointerSystem.World, steps: seq<PointerSystem.Step>, id: U32)
    requires PointerSystem.AllowedRun(w, steps) && forall step :: step in steps ==> !EndsIt(step, id)
    requires id in w.engine.interrupted && !IsActive(w.engine.active, id) && SaysNothingOf(w.queue, id)
    ensures var w' := PointerSystem.Run(w, steps);
      id in w'.engine.interrupted && !IsActive(w'.engine.active, id) && SaysNothingOf(w'.queue, id)
    decreases |steps|
  {
    hide PointerSystem.Allowed, PointerSystem.Apply, EndsIt, IsActive, SaysNothingOf;
    if steps != [] {
      assert steps[0] in steps && forall step :: step in steps[1..] ==> step in steps;
      StepIsSilent(w, steps[0], id);
      SilentUntilItEnds(PointerSystem.Apply(w, steps[0]), steps[1..], id);
    }
  }
}
