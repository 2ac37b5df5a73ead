/** The pool of GPU surfaces: at most four, shared by reference count with the mailboxes and the workers. */
module SurfacePool {
  import opened Bytes

  const MAX_IN_FLIGHT := 4

  datatype Key = Key(device: nat, width: nat, height: nat, format: int, bindFlags: nat)

  /** A surface; `serial` tells apart the surfaces ever created. */
  datatype Surface = Surface(serial: nat, key: Key)

  /** `held` has every surface once for each reference other than the pool's own. */
  datatype World = World(key: Option<Key>, surfaces: seq<Surface>, held: multiset<Surface>, created: nat)

  datatype Acquired = Got(surface: Surface) | Exhausted | Failed

  predicate IsFree(w: World, s: Surface) { w.held[s] == 0 }

  function FirstFree(w: World, surfaces: seq<Surface>): (r: Option<Surface>)
    ensures r.Some? ==> r.value in surfaces && IsFree(w, r.value)
    ensures r.None? ==> forall s :: s in surfaces ==> !IsFree(w, s)
  {
    if surfaces == [] then None
    else if IsFree(w, surfaces[0]) then Some(surfaces[0])
    else FirstFree(w, surfaces[1..])
  }

  /** `acquire`; `creates` is whether the device can create a texture. What is returned is one more
      reference. */
  function Acquire(w: World, key: Key, creates: bool): (World, Acquired) {
    var w1 := if w.key == Some(key) then w else w.(key := Some(key), surfaces := []);
    var free := FirstFree(w1, w1.surfaces);
    if free.Some? then (w1.(held := w1.held + multiset{free.value}), Got(free.value))
    else if |w1.surfaces| >= MAX_IN_FLIGHT then (w1, Exhausted)
    else if !creates then (w1, Failed)
    else
      var s := Surface(w1.created, key);
      (w1.(surfaces := w1.surfaces + [s], held := w1.held + multiset{s}, created := w1.created + 1), Got(s))
  }

  class GpuSurfacePool {
    var key: Option<Key>
    var surfaces: seq<Surface>
    var held: multiset<Surface>
    var created: nat

    function State(): World
      reads this
    {
      World(key, surfaces, held, created)
    }

    constructor ()
      ensures State() == World(None, [], multiset{}, 0)
    {
      key, surfaces, held, created := None, [], multiset{}, 0;
    }

    method AcquireSurface(wanted: Key, creates: bool) returns (r: Acquired)
      modifies this
      ensures (State(), r) == Acquire(old(State()), wanted, creates)
    {
      if key != Some(wanted) {
        surfaces := [];
        key := Some(wanted);
      }
      ghost var w1 := State();
      var i := 0;
      while i < |surfaces|
        invariant 0 <= i <= |surfaces|
        invariant FirstFree(w1, surfaces) == FirstFree(w1, surfaces[i..])
      {
        if held[surfaces[i]] == 0 {
          r := Got(surfaces[i]);
          held := held + multiset{surfaces[i]};
          return;
        }
        assert surfaces[i..][1..] == surfaces[i + 1..];
        i := i + 1;
      }
      if |surfaces| >= MAX_IN_FLIGHT { return Exhausted; }
      if !creates { return Failed; }
      var surface := Surface(created, wanted);
      created := created + 1;
      surfaces := surfaces + [surface];
      held := held + multiset{surface};
      return Got(surface);
    }
  }

  // ----- runs -----

  /** Surfaces are acquired, shared further and let go. */
  datatype Step = Acquiring(key: Key, creates: bool) | Share(surface: Surface) | LetGo(surface: Surface)

  predicate Possible(w: World, step: Step) {
    match step
    case Acquiring(_, _) => true
    case Share(s) => s in w.held
    case LetGo(s) => s in w.held
  }

  function Apply(w: World, step: Step): World {
    match step
    case Acquiring(key, creates) => Acquire(w, key, creates).0
    case Share(s) => w.(held := w.held + multiset{s})
    case LetGo(s) => w.(held := w.held - multiset{s})
  }

  /** Pooled surfaces match the key, are different, and number at most four. */
  predicate Good(w: World) {
    && |w.surfaces| <= MAX_IN_FLIGHT
    && (forall s :: s in w.surfaces ==> Some(s.key) == w.key && s.serial < w.created)
    && (forall i, j :: 0 <= i < j < |w.surfaces| ==> w.surfaces[i] != w.surfaces[j])
    && (forall s :: s in w.held ==> s.serial < w.created)
  }

  lemma StepKeepsGood(w: World, step: Step)
    requires Good(w) && Possible(w, step)
    ensures Good(Apply(w, step))
  {
  }

  /** What `acquire` hands out has the key asked for, is pooled, and nobody else held it, nor had any
      reference to it, before. */
  lemma NeverHandsOutWhatIsHeld(w: World, key: Key, creates: bool)
    requires Good(w)
    ensures var (w', r) := Acquire(w, key, creates);
      r.Got? ==> r.surface !in w.held && w'.held == w.held + multiset{r.surface}
                 && r.surface.key == key && r.surface in w'.surfaces && w'.key == Some(key)
  {
  }

  function PooledFor(w: World, key: Key): seq<Surface> { if w.key == Some(key) then w.surfaces else [] }

  /** It gives none exactly when four surfaces of this key are pooled and all of them are held elsewhere,
      and fails exactly when all that are pooled are held, fewer than four are, and none can be created. */
  lemma ExhaustedIff(w: World, key: Key, creates: bool)
    requires Good(w)
    ensures var (w', r) := Acquire(w, key, creates);
      var pooled := PooledFor(w, key);
      var allHeld := forall s :: s in pooled ==> s in w.held;
      && (r.Exhausted? <==> |pooled| == MAX_IN_FLIGHT && allHeld)
      && (r.Failed? <==> |pooled| < MAX_IN_FLIGHT && allHeld && !creates)
      && (!r.Got? ==> w' == w.(key := Some(key), surfaces := pooled))
  {
    assert forall s :: IsFree(w, s) <==> s !in w.held;
  }

  function Run(w: World, steps: seq<Step>): World
    decreases |steps|
  {
    if steps == [] then w else Run(Apply(w, steps[0]), steps[1..])
  }

  predicate PossibleRun(w: World, steps: seq<Step>)
    decreases |steps|
  {
    steps == [] || (Possible(w, steps[0]) && PossibleRun(Apply(w, steps[0]), steps[1..]))
  }

  lemma {:induction false} RunKeepsGood(w: World, steps: seq<Step>)
    requires Good(w) && PossibleRun(w, steps)
    ensures Good(Run(w, steps))
    decreases |steps|
  {
    hide Good, Apply, Possible;
    if steps != [] {
      StepKeepsGood(w, steps[0]);
      RunKeepsGood(Apply(w, steps[0]), steps[1..]);
    }
  }

  /** How many references there are after a step that began with n, if it is not handed out in it. */
  function Counted(n: nat, step: Step, surface: Surface): nat {
    if step == Share(surface) then n + 1
    else if step == LetGo(surface) && n > 0 then n - 1
    else n
  }

  lemma StepCounts(w: World, step: Step, surface: Surface)
    requires Good(w) && surface in w.held
    ensures Apply(w, step).held[surface] == Counted(w.held[surface], step, surface)
  {
  }

  /** Of n references some remains throughout, though others are taken and let go. */
  predicate HoldsOn(n: nat, steps: seq<Step>, surface: Surface)
    decreases |steps|
  {
    n > 0 && (steps == [] || HoldsOn(Counted(n, steps[0], surface), steps[1..], surface))
  }

  /** A surface to which some reference remains throughout is not handed out again, whatever else happens: the
      key may change and change back, other surfaces come and go, and references to it be taken and let go. */
  lemma {:induction false} HeldSurfacesStayApart(w: World, steps: seq<Step>, surface: Surface, key: Key, creates: bool)
    requires Good(w) && PossibleRun(w, steps) && HoldsOn(w.held[surface], steps, surface)
    ensures surface in Run(w, steps).held
    ensures Acquire(Run(w, steps), key, creates).1 != Got(surface)
    decreases |steps|
  {
    hide Good, Possible, Acquire, Apply, Counted;
    if steps == [] {
      NeverHandsOutWhatIsHeld(w, key, creates);
    } else {
      StepKeepsGood(w, steps[0]);
      StepCounts(w, steps[0], surface);
      HeldSurfacesStayApart(Apply(w, steps[0]), steps[1..], surface, key, creates);
    }
  }
}
