/** Capture, preprocessing and encoding as three threads around two mailboxes, interleaved in any order.
    Frames are numbered as they are captured. */
module VideoPipeline {
  import opened Bytes
  import opened Mailbox

  /** A worker waits for a frame, works on one, or has left its loop. */
  datatype Worker = Waiting | Working(frame: nat) | Ended

  /** `encoded` are the frames given to the encoder, in order; `skipped` counts those that preprocessing
      could not turn into a prepared one. */
  datatype Pipeline = Pipeline(
    raw: Box<nat>, preprocess: Worker, prepared: Box<nat>, encode: Worker, skipped: nat, encoded: seq<nat>)

  datatype Step =
    | Capture
    | Stop
    | PreprocessTakes
    | PreprocessSubmits
    | PreprocessSkips
    | EncodeTakes
    | EncodeFinishes

  predicate Enabled(p: Pipeline, step: Step) {
    match step
    case Capture => true
    case Stop => true
    case PreprocessTakes => p.preprocess.Waiting? && p.raw.Ready()
    case PreprocessSubmits => p.preprocess.Working?
    case PreprocessSkips => p.preprocess.Working?
    case EncodeTakes => p.encode.Waiting? && p.prepared.Ready()
    case EncodeFinishes => p.encode.Working?
  }

  /** Leaving the preprocessing loop stops the second mailbox. */
  function Apply(p: Pipeline, step: Step): Pipeline
    requires Enabled(p, step)
  {
    match step
    case Capture => p.(raw := p.raw.Submitted(p.raw.submitted))
    case Stop => p.(raw := p.raw.Stopped())
    case PreprocessTakes =>
      var (raw, frame) := p.raw.Taken();
      if frame.Some? then p.(raw := raw, preprocess := Working(frame.value))
      else p.(raw := raw, preprocess := Ended, prepared := p.prepared.Stopped())
    case PreprocessSubmits => p.(preprocess := Waiting, prepared := p.prepared.Submitted(p.preprocess.frame))
    case PreprocessSkips => p.(preprocess := Waiting, skipped := p.skipped + 1)
    case EncodeTakes =>
      var (prepared, frame) := p.prepared.Taken();
      if frame.Some? then p.(prepared := prepared, encode := Working(frame.value), encoded := p.encoded + [frame.value])
      else p.(prepared := prepared, encode := Ended)
    case EncodeFinishes => p.(encode := Waiting)
  }

  predicate EnabledRun(p: Pipeline, steps: seq<Step>)
    decreases |steps|
  {
    steps == [] || (Enabled(p, steps[0]) && EnabledRun(Apply(p, steps[0]), steps[1..]))
  }

  function Run(p: Pipeline, steps: seq<Step>): Pipeline
    requires EnabledRun(p, steps)
    decreases |steps|
  {
    if steps == [] then p else Run(Apply(p, steps[0]), steps[1..])
  }

  const EMPTY: Box<nat> := Box(None, false, 0, 0, 0)

  function Start(): Pipeline { Pipeline(EMPTY, Waiting, EMPTY, Waiting, 0, []) }

  // ----- what holds all the time -----

  predicate Increasing(s: seq<nat>) { forall i, j :: 0 <= i < j < |s| ==> s[i] < s[j] }

  /** The last frame given to the encoder, plus one. */
  function Reached(p: Pipeline): nat { if p.encoded == [] then 0 else p.encoded[|p.encoded| - 1] + 1 }

  function InHand(w: Worker): nat { if w.Working? then 1 else 0 }
  function InSlot(b: Box<nat>): nat { if b.slot.Some? then 1 else 0 }

  /** Frames further along are older: encoded ones before the one in the second mailbox, that before the
      one in preprocessing, that before the one in the first mailbox, which is the newest of all. */
  predicate InOrder(p: Pipeline) {
    && Increasing(p.encoded)
    && (p.raw.slot.Some? ==> p.raw.slot.value + 1 == p.raw.submitted)
    && var limit := p.raw.submitted - InSlot(p.raw);
       var prepared := if p.preprocess.Working? then p.preprocess.frame else limit;
       && prepared <= limit && (p.preprocess.Working? ==> p.preprocess.frame < limit)
       && (p.prepared.slot.Some? ==> Reached(p) <= p.prepared.slot.value < prepared)
       && Reached(p) <= prepared
  }

  /** No frame is lost: each one was replaced, skipped, encoded, or is somewhere. */
  predicate Accounted(p: Pipeline) {
    && p.raw.Balanced() && p.prepared.Balanced()
    && p.raw.taken == p.prepared.submitted + p.skipped + InHand(p.preprocess)
    && p.prepared.taken == |p.encoded|
  }

  /** A loop only ends when its mailbox is stopped and empty, and the second one is stopped by the end of
      the first loop. */
  predicate Endings(p: Pipeline) {
    && (p.prepared.stopped <==> p.preprocess.Ended?)
    && (p.preprocess.Ended? ==> p.raw.stopped)
    && (p.encode.Ended? ==> p.prepared.stopped && p.prepared.slot.None?)
  }

  predicate Invariant(p: Pipeline) { InOrder(p) && Accounted(p) && Endings(p) }

  lemma StepKeeps(p: Pipeline, step: Step)
    requires Invariant(p) && Enabled(p, step)
    ensures Invariant(Apply(p, step))
  {
    OrderKeeps(p, step);
    AccountsKeep(p, step);
    hide InOrder, Accounted;
  }

  lemma OrderKeeps(p: Pipeline, step: Step)
    requires InOrder(p) && Enabled(p, step)
    ensures InOrder(Apply(p, step))
  {
    hide Increasing;
    if step.EncodeTakes? && p.prepared.slot.Some? { OneMore(p.encoded, p.prepared.slot.value); }
  }

  lemma OneMore(s: seq<nat>, f: nat)
    requires Increasing(s) && (s != [] ==> s[|s| - 1] < f)
    ensures Increasing(s + [f])
  {
  }

  lemma AccountsKeep(p: Pipeline, step: Step)
    requires Accounted(p) && Enabled(p, step)
    ensures Accounted(Apply(p, step))
  {
  }

  lemma {:induction false} RunKeeps(p: Pipeline, steps: seq<Step>)
    requires Invariant(p) && EnabledRun(p, steps)
    ensures Invariant(Run(p, steps))
    decreases |steps|
  {
    hide Invariant, Apply, Enabled;
    if steps != [] {
      StepKeeps(p, steps[0]);
      RunKeeps(Apply(p, steps[0]), steps[1..]);
    }
  }

  /** In every interleaving the encoder gets some of the captured frames, each once and in their order,
      and every captured frame was encoded, skipped, replaced by a newer one, or is on its way. */
  lemma EveryRunKeepsOrder(steps: seq<Step>)
    requires EnabledRun(Start(), steps)
    ensures var p := Run(Start(), steps);
      && Increasing(p.encoded) && (forall f :: f in p.encoded ==> f < p.raw.submitted)
      && p.raw.submitted == |p.encoded| + p.skipped + p.raw.replaced + p.prepared.replaced
                            + InSlot(p.raw) + InHand(p.preprocess) + InSlot(p.prepared)
  {
    hide Run, EnabledRun, Increasing, InOrder, Accounted, Endings;
    StartHolds();
    RunKeeps(Start(), steps);
    EncodedAreCaptured(Run(Start(), steps));
    AllAccounted(Run(Start(), steps));
  }

  lemma EncodedAreCaptured(p: Pipeline)
    requires InOrder(p)
    ensures Increasing(p.encoded) && forall f :: f in p.encoded ==> f < p.raw.submitted
  {
    LastIsLargest(p.encoded);
  }

  lemma AllAccounted(p: Pipeline)
    requires Accounted(p)
    ensures p.raw.submitted == |p.encoded| + p.skipped + p.raw.replaced + p.prepared.replaced
                               + InSlot(p.raw) + InHand(p.preprocess) + InSlot(p.prepared)
  {
  }

  lemma StartHolds()
    ensures Invariant(Start())
  {
  }

  lemma LastIsLargest(s: seq<nat>)
    requires Increasing(s)
    ensures forall f :: f in s ==> f <= s[|s| - 1]
  {
  }

  /** What a worker takes is the newest frame its mailbox was ever given. */
  lemma TakesTheNewest(p: Pipeline, earlier: Pipeline, step: Step)
    requires Invariant(earlier) && Enabled(earlier, step) && p == Apply(earlier, step)
    requires step.PreprocessTakes? && p.preprocess.Working?
    ensures p.preprocess.frame == earlier.raw.submitted - 1
  {
  }

  // ----- after stop -----

  /** How many worker steps are left once nothing is captured any more. */
  function Left(p: Pipeline): nat {
    6 * InSlot(p.raw) + 5 * InHand(p.preprocess) + 3 * InSlot(p.prepared) + 2 * InHand(p.encode)
    + (if p.preprocess.Ended? then 0 else 1) + (if p.encode.Ended? then 0 else 1)
  }

  predicate IsWork(step: Step) { !step.Capture? && !step.Stop? }

  /** A frame captured after the preprocessing loop has ended. */
  predicate Abandoned(p: Pipeline) { p.preprocess.Ended? && p.raw.slot.Some? }

  lemma WorkDecreases(p: Pipeline, step: Step)
    requires Invariant(p) && Enabled(p, step) && IsWork(step)
    ensures Left(Apply(p, step)) < Left(p)
    ensures Apply(p, step).raw.stopped == p.raw.stopped && Apply(p, step).raw.submitted == p.raw.submitted
    ensures Abandoned(Apply(p, step)) <==> Abandoned(p)
  {
  }

  /** Once stopped, some worker can go on until both loops have ended. */
  lemma SomeWorkIsEnabled(p: Pipeline)
    requires Invariant(p) && p.raw.stopped
    ensures (exists step :: IsWork(step) && Enabled(p, step)) <==> !(p.preprocess.Ended? && p.encode.Ended?)
  {
    if !p.preprocess.Ended? {
      var step := if p.preprocess.Waiting? then PreprocessTakes else PreprocessSkips;
      assert IsWork(step) && Enabled(p, step);
    } else if !p.encode.Ended? {
      var step := if p.encode.Waiting? then EncodeTakes else EncodeFinishes;
      assert IsWork(step) && Enabled(p, step);
    }
  }

  predicate AllWork(steps: seq<Step>) { forall s :: s in steps ==> IsWork(s) }

  lemma {:induction false} WorkIsBounded(p: Pipeline, steps: seq<Step>)
    requires Invariant(p) && EnabledRun(p, steps) && AllWork(steps)
    ensures |steps| + Left(Run(p, steps)) <= Left(p)
    ensures Run(p, steps).raw.stopped == p.raw.stopped && Run(p, steps).raw.submitted == p.raw.submitted
    ensures Abandoned(Run(p, steps)) <==> Abandoned(p)
    decreases |steps|
  {
    hide Invariant, Apply, Enabled, Left, Abandoned;
    if steps != [] {
      assert steps[0] in steps;
      StepKeeps(p, steps[0]);
      WorkDecreases(p, steps[0]);
      WorkIsBounded(Apply(p, steps[0]), steps[1..]);
    }
  }

  /** After stop, when nothing more is captured: no interleaving goes on for more than eighteen steps, none
      gets stuck before both loops have ended, and when they have, the second mailbox is empty, and so is
      the first exactly unless its frame came after its loop had ended; every other captured frame was
      encoded, skipped or replaced. */
  lemma StopDrains(p: Pipeline, steps: seq<Step>)
    requires Invariant(p) && p.raw.stopped && EnabledRun(p, steps) && AllWork(steps)
    ensures |steps| <= 18
    ensures var q := Run(p, steps);
      && ((exists step :: IsWork(step) && Enabled(q, step)) <==> !(q.preprocess.Ended? && q.encode.Ended?))
      && (q.preprocess.Ended? && q.encode.Ended? ==>
            && q.prepared.slot.None? && (q.raw.slot.Some? <==> Abandoned(p))
            && q.raw.submitted == p.raw.submitted
            && q.raw.submitted == |q.encoded| + q.skipped + q.raw.replaced + q.prepared.replaced + InSlot(q.raw))
  {
    hide AllWork, EnabledRun, Run;
    WorkIsBounded(p, steps);
    RunKeeps(p, steps);
    SomeWorkIsEnabled(Run(p, steps));
  }
}
