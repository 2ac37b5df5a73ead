/** The encoder loop, whose encoder belongs to one generation of the settings, the broadcast of what it
    produces, and the forwarding of the broadcast to one peer. */
module EncodeLoop {
  import opened Bytes

  datatype Codec = H264 | Hevc | Av1
  datatype Mode = Auto | H264Software | H264Hardware | HevcHardware | Av1Hardware

  function CodecOf(m: Mode): Codec { match m case HevcHardware => Hevc case Av1Hardware => Av1 case _ => H264 }

  const TWO64: int := 0x1_0000_0000_0000_0000

  /** The settings the loop looks at: which change of them this is, modulo 2^64, and the active mode. */
  datatype PipelineSelection = PipelineSelection(generation: U64, mode: Mode)

  function Changed(s: PipelineSelection, mode: Mode): PipelineSelection { PipelineSelection((s.generation + 1) % TWO64, mode) }

  /** An encoder makes frames of the codec it was created for. */
  datatype Encoder = Encoder(codec: Codec)

  /** A broadcast frame: the codec it is labelled with and the codec it really has. */
  datatype Frame = Frame(codec: Codec, made: Codec, keyframe: bool)

  datatype Loop = Loop(encoder: Option<Encoder>, generation: U64, requested: bool, sent: seq<Frame>)

  /** Whether an encoder can be created, and what encoding gives. */
  datatype Encoding = Packet(keyframe: bool) | NoPacket | Breaks
  datatype Outcome = Outcome(creates: bool, encoding: Encoding)

  /** One round of the loop, with the settings as they are when it begins. */
  function Round(l: Loop, selection: PipelineSelection, io: Outcome): Loop {
    var codec := CodecOf(selection.mode);
    var l1 := if selection.generation != l.generation then l.(encoder := None, generation := selection.generation) else l;
    if l1.encoder.None? && !io.creates then l1
    else
      var encoder := if l1.encoder.None? then Encoder(codec) else l1.encoder.value;
      var l2 := l1.(encoder := Some(encoder), requested := false);
      match io.encoding
      case Packet(keyframe) => l2.(sent := l2.sent + [Frame(codec, encoder.codec, keyframe)])
      case NoPacket => l2
      case Breaks => l2.(encoder := None)
  }

  class VideoLoop {
    var encoder: Option<Encoder>
    var generation: U64
    var keyframeRequested: bool
    var sent: seq<Frame>

    function State(): Loop
      reads this
    {
      Loop(encoder, generation, keyframeRequested, sent)
    }

    constructor ()
      ensures State() == Loop(None, TWO64 - 1, false, [])
    {
      encoder, generation, keyframeRequested, sent := None, TWO64 - 1, false, [];
    }

    method EncodeNext(selection: PipelineSelection, io: Outcome)
      modifies this
      ensures State() == Round(old(State()), selection, io)
    {
      var codec := CodecOf(selection.mode);
      if selection.generation != generation {
        encoder := None;
        generation := selection.generation;
      }
      if encoder.None? {
        if !io.creates { return; }
        encoder := Some(Encoder(codec));
      }
      keyframeRequested := false;
      match io.encoding
      case Packet(keyframe) => sent := sent + [Frame(codec, encoder.value.codec, keyframe)];
      case NoPacket =>
      case Breaks => encoder := None;
    }
  }

  // ----- labels -----

  /** The settings and the loop; `pending` counts the changes the loop has not seen. */
  datatype Studio = Studio(selection: PipelineSelection, loop: Loop, pending: nat)

  datatype Step = Change(mode: Mode) | Encode(io: Outcome) | Request

  function Apply(s: Studio, step: Step): Studio {
    match step
    case Change(mode) => s.(selection := Changed(s.selection, mode), pending := s.pending + 1)
    case Encode(io) => s.(loop := Round(s.loop, s.selection, io), pending := 0)
    case Request => s.(loop := s.loop.(requested := true))
  }

  function Run(s: Studio, steps: seq<Step>): Studio
    decreases |steps|
  {
    if steps == [] then s else Run(Apply(s, steps[0]), steps[1..])
  }

  /** Between two rounds there are fewer than 2^64 changes. */
  predicate Noticed(s: Studio, steps: seq<Step>)
    decreases |steps|
  {
    s.pending < TWO64 && (steps == [] || Noticed(Apply(s, steps[0]), steps[1..]))
  }

  predicate Labelled(sent: seq<Frame>) { forall f :: f in sent ==> f.codec == f.made }

  predicate Good(s: Studio) {
    && s.selection.generation == (s.loop.generation + s.pending) % TWO64
    && (s.pending == 0 && s.loop.encoder.Some? ==> s.loop.encoder.value.codec == CodecOf(s.selection.mode))
    && Labelled(s.loop.sent)
  }

  lemma Congruent(a: nat, n: nat)
    requires a < TWO64
    ensures ((a + n) % TWO64 == a) <==> n % TWO64 == 0
  {
    var q := n / TWO64;
    assert n == q * TWO64 + n % TWO64;
    Shift(a + n % TWO64, q);
  }

  lemma {:induction false} Shift(a: nat, q: nat)
    ensures (a + q * TWO64) % TWO64 == a % TWO64
  {
    if q > 0 {
      Shift(a, q - 1);
      assert a + q * TWO64 == a + (q - 1) * TWO64 + TWO64;
    }
  }

  lemma Next(a: nat, n: nat)
    ensures ((a + n) % TWO64 + 1) % TWO64 == (a + n + 1) % TWO64
  {
  }

  lemma StepKeepsGood(s: Studio, step: Step)
    requires Good(s) && s.pending < TWO64
    ensures Good(Apply(s, step))
  {
    match step
    case Change(mode) => Next(s.loop.generation, s.pending);
    case Encode(io) =>
      Congruent(s.loop.generation, s.pending);
      RoundKeepsLabels(s, io);
    case Request =>
  }

  lemma RoundKeepsLabels(s: Studio, io: Outcome)
    requires Good(s) && s.pending < TWO64
    ensures var l := Round(s.loop, s.selection, io);
      && Labelled(l.sent) && l.generation == s.selection.generation
      && (l.encoder.Some? ==> l.encoder.value.codec == CodecOf(s.selection.mode))
  {
    Congruent(s.loop.generation, s.pending);
  }

  lemma {:induction false} RunKeepsGood(s: Studio, steps: seq<Step>)
    requires Good(s) && Noticed(s, steps)
    ensures Good(Run(s, steps))
    decreases |steps|
  {
    hide Good, Apply;
    if steps != [] {
      StepKeepsGood(s, steps[0]);
      RunKeepsGood(Apply(s, steps[0]), steps[1..]);
    }
  }

  /** The loop begins at generation 2^64 - 1, one change behind the settings at 0. */
  function Start(mode: Mode): Studio { Studio(PipelineSelection(0, mode), Loop(None, TWO64 - 1, false, []), 1) }

  /** Whatever the settings do and however encoders fail, every broadcast frame is labelled with the codec
      of the encoder that made it. */
  lemma EveryFrameIsLabelledRight(mode: Mode, steps: seq<Step>)
    requires Noticed(Start(mode), steps)
    ensures Labelled(Run(Start(mode), steps).loop.sent)
  {
    RunKeepsGood(Start(mode), steps);
  }

  /** How far that goes: after any number of changes the label of the next frame is right if and only if
      the number is not a multiple of 2^64, at which the generation comes round, or the codec is the same
      as before. */
  lemma LabelIsRightIff(s: Studio, mode: Mode, changes: nat, keyframe: bool)
    requires Good(s) && s.pending == 0 && s.loop.encoder.Some?
    ensures var selection := PipelineSelection((s.selection.generation + changes) % TWO64, mode);
      var l := Round(s.loop, selection, Outcome(true, Packet(keyframe)));
      Labelled(l.sent) <==> changes % TWO64 != 0 || CodecOf(mode) == s.loop.encoder.value.codec
  {
    Congruent(s.selection.generation, changes);
    var selection := PipelineSelection((s.selection.generation + changes) % TWO64, mode);
    var l := Round(s.loop, selection, Outcome(true, Packet(keyframe)));
    assert l.sent[|s.loop.sent|] in l.sent;
    assert forall f :: f in l.sent <==> f in s.loop.sent || f == l.sent[|s.loop.sent|];
  }

  // ----- what is broadcast, from the history alone -----

  /** The loop has an encoder that belongs to the settings as they are. */
  predicate HasEncoder(s: Studio) { s.loop.encoder.Some? && s.pending == 0 }

  predicate Harmless(step: Step) { !step.Change? && !(step.Encode? && step.io.encoding.Breaks?) }

  predicate Unharmed(steps: seq<Step>, from: nat) { forall k :: from <= k < |steps| ==> Harmless(steps[k]) }

  /** An encoder could be created at step j, and neither have the settings changed nor has encoding failed
      since. */
  predicate KeptSince(steps: seq<Step>, j: nat)
    requires j < |steps|
  {
    steps[j].Encode? && steps[j].io.creates && Unharmed(steps, j)
  }

  ghost predicate SomethingKept(steps: seq<Step>) { exists j :: 0 <= j < |steps| && KeptSince(steps, j) }

  lemma StepKeepsEncoder(s: Studio, step: Step)
    requires Good(s) && s.pending < TWO64
    ensures HasEncoder(Apply(s, step)) <==> Harmless(step) && (HasEncoder(s) || (step.Encode? && step.io.creates))
  {
    Congruent(s.loop.generation, s.pending);
  }

  lemma KeptInTail(steps: seq<Step>)
    requires steps != []
    ensures SomethingKept(steps) <==>
      SomethingKept(steps[1..]) || (steps[0].Encode? && steps[0].io.creates && Unharmed(steps, 0))
    ensures Unharmed(steps, 0) <==> Harmless(steps[0]) && Unharmed(steps[1..], 0)
  {
    hide Harmless;
    var rest := steps[1..];
    forall j: nat | 1 <= j < |steps| ensures KeptSince(steps, j) <==> KeptSince(rest, j - 1) {
      if Unharmed(rest, j - 1) {
        forall k | j <= k < |steps| ensures Harmless(steps[k]) { assert Harmless(rest[k - 1]); }
      }
    }
    if SomethingKept(rest) {
      var j :| 0 <= j < |rest| && KeptSince(rest, j);
      assert KeptSince(steps, j + 1);
    }
    if SomethingKept(steps) {
      var j :| 0 <= j < |steps| && KeptSince(steps, j);
      if j > 0 { assert KeptSince(rest, j - 1); }
    }
    if Unharmed(rest, 0) {
      forall k | 1 <= k < |steps| ensures Harmless(steps[k]) { assert Harmless(rest[k - 1]); }
    }
    if steps[0].Encode? && steps[0].io.creates && Unharmed(steps, 0) { assert KeptSince(steps, 0); }
  }

  lemma {:induction false} RunKeepsEncoder(s: Studio, steps: seq<Step>)
    requires Good(s) && Noticed(s, steps)
    ensures HasEncoder(Run(s, steps)) <==> SomethingKept(steps) || (HasEncoder(s) && Unharmed(steps, 0))
    decreases |steps|
  {
    hide Good, Apply, HasEncoder, Harmless, SomethingKept, Unharmed;
    if steps == [] {
      NothingKept();
    } else {
      StepKeepsGood(s, steps[0]);
      StepKeepsEncoder(s, steps[0]);
      RunKeepsEncoder(Apply(s, steps[0]), steps[1..]);
      KeptInTail(steps);
    }
  }

  lemma NothingKept()
    ensures !SomethingKept([]) && Unharmed([], 0)
  {
  }

  /** The mode that was chosen last. */
  function LatestMode(mode: Mode, steps: seq<Step>): Mode
    decreases |steps|
  {
    if steps == [] then mode else LatestMode(if steps[0].Change? then steps[0].mode else mode, steps[1..])
  }

  lemma {:induction false} RunSelectsLatest(s: Studio, steps: seq<Step>)
    ensures Run(s, steps).selection.mode == LatestMode(s.selection.mode, steps)
    decreases |steps|
  {
    if steps != [] { RunSelectsLatest(Apply(s, steps[0]), steps[1..]); }
  }

  /** One round broadcasts one frame exactly if it has an encoder, the one of this generation or a new one,
      and encoding gives a packet; the frame is labelled by the settings of the round. */
  lemma BroadcastIff(l: Loop, selection: PipelineSelection, io: Outcome)
    ensures var l' := Round(l, selection, io);
      var hasEncoder := io.creates || (l.encoder.Some? && l.generation == selection.generation);
      if hasEncoder && io.encoding.Packet? then
        exists f :: l'.sent == l.sent + [f] && f.codec == CodecOf(selection.mode) && f.keyframe == io.encoding.keyframe
      else l'.sent == l.sent
  {
    var l' := Round(l, selection, io);
    if |l'.sent| > |l.sent| { assert l'.sent == l.sent + [l'.sent[|l.sent|]]; }
  }

  /** After any history a round broadcasts one frame, of the codec of the mode chosen last and labelled so, if
      and only if encoding gives a packet and an encoder can be created now, or could in a round since which
      neither the settings changed nor encoding failed. */
  lemma BroadcastFromHistory(mode: Mode, steps: seq<Step>, io: Outcome)
    requires Noticed(Start(mode), steps)
    ensures var s := Run(Start(mode), steps);
      var codec := CodecOf(LatestMode(mode, steps));
      Apply(s, Encode(io)).loop.sent ==
        if io.encoding.Packet? && (io.creates || SomethingKept(steps))
        then s.loop.sent + [Frame(codec, codec, io.encoding.keyframe)]
        else s.loop.sent
  {
    hide Run, Noticed, SomethingKept, Unharmed, Round;
    var s := Run(Start(mode), steps);
    RunKeepsGood(Start(mode), steps);
    RunKeepsEncoder(Start(mode), steps);
    RunSelectsLatest(Start(mode), steps);
    StillNoticed(Start(mode), steps);
    Congruent(s.loop.generation, s.pending);
    BroadcastIff(s.loop, s.selection, io);
    RoundKeepsLabels(s, io);
    LastIsLabelled(s.loop.sent, Round(s.loop, s.selection, io).sent);
  }

  lemma LastIsLabelled(before: seq<Frame>, after: seq<Frame>)
    requires Labelled(after)
    ensures forall f :: after == before + [f] ==> f.codec == f.made
  {
    forall f | after == before + [f] ensures f.codec == f.made {
      assert after[|before|] == f && f in after;
    }
  }

  lemma {:induction false} StillNoticed(s: Studio, steps: seq<Step>)
    requires Noticed(s, steps)
    ensures Run(s, steps).pending < TWO64
    decreases |steps|
  {
    if steps != [] { StillNoticed(Apply(s, steps[0]), steps[1..]); }
  }

  /** A request for a keyframe is out once a round has an encoder to pass it to, and waits until then. */
  lemma RequestsWait(s: Studio, io: Outcome)
    requires Good(s) && s.pending < TWO64
    ensures Apply(Apply(s, Request), Encode(io)).loop.requested <==> !(io.creates || HasEncoder(s))
  {
    Congruent(s.loop.generation, s.pending);
  }

  // ----- one peer -----

  class StartupKeyframeGate {
    var awaitingKeyframe: bool

    constructor ()
      ensures awaitingKeyframe
    {
      awaitingKeyframe := true;
    }

    method Admit(keyframe: bool) returns (admitted: bool)
      modifies this
      ensures admitted <==> keyframe || !old(awaitingKeyframe)
      ensures awaitingKeyframe <==> !admitted
    {
      if awaitingKeyframe {
        if !keyframe { return false; }
        awaitingKeyframe := false;
      }
      return true;
    }
  }

  /** What the broadcast receiver gives: a frame, or the number of frames it had to leave out. */
  datatype Received = Got(frame: Frame) | Lagged(count: nat)

  function Frames(rx: seq<Received>): seq<Frame> {
    if rx == [] then []
    else Frames(rx[..|rx| - 1]) + (if rx[|rx| - 1].Got? then [rx[|rx| - 1].frame] else [])
  }

  function Matching(frames: seq<Frame>, codec: Codec): seq<Frame> {
    if frames == [] then []
    else
      var last := frames[|frames| - 1];
      Matching(frames[..|frames| - 1], codec) + (if last.codec == codec then [last] else [])
  }

  /** The frames from the first keyframe on. */
  function FromKeyframe(frames: seq<Frame>): seq<Frame> {
    if frames == [] then []
    else if frames[0].keyframe then frames
    else FromKeyframe(frames[1..])
  }

  /** They are the frames after some that are no keyframes, and begin with a keyframe. */
  lemma {:induction false} BeginsWithKeyframe(frames: seq<Frame>)
    ensures var r := FromKeyframe(frames);
      && (r == [] || r[0].keyframe)
      && |r| <= |frames| && r == frames[|frames| - |r|..]
      && forall i :: 0 <= i < |frames| - |r| ==> !frames[i].keyframe
  {
    if frames != [] && !frames[0].keyframe {
      BeginsWithKeyframe(frames[1..]);
    }
  }

  function Lags(rx: seq<Received>): nat {
    if rx == [] then 0 else Lags(rx[..|rx| - 1]) + (if rx[|rx| - 1].Lagged? then rx[|rx| - 1].count else 0)
  }

  lemma FromKeyframeMore(frames: seq<Frame>, f: Frame)
    ensures FromKeyframe(frames + [f]) ==
      if FromKeyframe(frames) != [] then FromKeyframe(frames) + [f] else if f.keyframe then [f] else []
    decreases |frames|
  {
    if frames == [] {
      assert frames + [f] == [f] && [f][1..] == [];
    } else if !frames[0].keyframe {
      assert (frames + [f])[1..] == frames[1..] + [f];
      FromKeyframeMore(frames[1..], f);
    }
  }

  /** The forwarding loop, until the broadcast closes or the track refuses a sample after `accepts`. */
  method ForwardVideo(rx: seq<Received>, codec: Codec, accepts: nat)
      returns (written: seq<Frame>, transportDrops: nat, startupSkips: nat, broken: bool)
    ensures !broken ==> written == FromKeyframe(Matching(Frames(rx), codec))
    ensures !broken ==> transportDrops == Lags(rx) + |Frames(rx)| - |Matching(Frames(rx), codec)|
    ensures !broken ==> startupSkips == |Matching(Frames(rx), codec)| - |written|
    ensures |written| <= accepts && (broken ==> |written| == accepts)
    ensures broken ==> exists n :: 0 <= n <= |rx| && written <= FromKeyframe(Matching(Frames(rx[..n]), codec))
  {
    hide Frames, Matching, FromKeyframe, Lags;
    NothingReceived(codec);
    var gate := new StartupKeyframeGate();
    written, transportDrops, startupSkips, broken := [], 0, 0, false;
    var i := 0;
    while i < |rx|
      invariant 0 <= i <= |rx| && |written| <= accepts
      invariant fresh(gate) && gate.awaitingKeyframe == (written == [])
      invariant written == FromKeyframe(Matching(Frames(rx[..i]), codec))
      invariant transportDrops == Lags(rx[..i]) + |Frames(rx[..i])| - |Matching(Frames(rx[..i]), codec)|
      invariant startupSkips == |Matching(Frames(rx[..i]), codec)| - |written|
    {
      OneMoreReceived(rx, i, codec);
      match rx[i] {
        case Got(frame) =>
          FromKeyframeMore(Matching(Frames(rx[..i]), codec), frame);
          if frame.codec != codec {
            transportDrops := transportDrops + 1;
          } else {
            var admitted := gate.Admit(frame.keyframe);
            if !admitted {
              startupSkips := startupSkips + 1;
            } else if |written| == accepts {
              broken := true;
              return;
            } else {
              written := written + [frame];
            }
          }
        case Lagged(skipped) => transportDrops := transportDrops + skipped;
      }
      i := i + 1;
    }
    assert rx[..i] == rx;
  }

  lemma NothingReceived(codec: Codec)
    ensures Frames([]) == [] && Lags([]) == 0 && Matching([], codec) == [] && FromKeyframe([]) == []
  {
  }

  lemma OneMoreReceived(rx: seq<Received>, i: nat, codec: Codec)
    requires i < |rx|
    ensures Lags(rx[..i + 1]) == Lags(rx[..i]) + if rx[i].Lagged? then rx[i].count else 0
    ensures |Frames(rx[..i + 1])| == |Frames(rx[..i])| + if rx[i].Got? then 1 else 0
    ensures Matching(Frames(rx[..i + 1]), codec) ==
      if rx[i].Got? && rx[i].frame.codec == codec then Matching(Frames(rx[..i]), codec) + [rx[i].frame]
      else Matching(Frames(rx[..i]), codec)
  {
    assert rx[..i + 1][..i] == rx[..i];
    var frames := Frames(rx[..i + 1]);
    if rx[i].Got? {
      assert frames[..|frames| - 1] == Frames(rx[..i]);
    } else {
      assert frames == Frames(rx[..i]);
    }
  }

  // ----- from the encoder to the peer -----

  /** A receiver that is at position `from` of the broadcast gets `rx` and is then at `to`. */
  predicate Delivers(rx: seq<Received>, sent: seq<Frame>, from: nat, to: nat) {
    if rx == [] then from == to <= |sent|
    else
      match rx[|rx| - 1]
      case Got(f) => from < to <= |sent| && sent[to - 1] == f && Delivers(rx[..|rx| - 1], sent, from, to - 1)
      case Lagged(n) => from + n <= to <= |sent| && Delivers(rx[..|rx| - 1], sent, from, to - n)
  }

  /** The frames stand at these increasing places of the broadcast. */
  predicate Picks(places: seq<nat>, frames: seq<Frame>, sent: seq<Frame>, from: nat, to: nat) {
    && |places| == |frames|
    && (forall i :: 0 <= i < |places| ==> from <= places[i] < to && places[i] < |sent| && sent[places[i]] == frames[i])
    && (forall i, j :: 0 <= i < j < |places| ==> places[i] < places[j])
  }

  predicate Below(places: seq<nat>, p: nat) { forall i :: 0 <= i < |places| ==> places[i] < p }

  lemma PicksNothing(sent: seq<Frame>, from: nat, to: nat)
    ensures Picks([], [], sent, from, to)
  {
  }

  lemma SomeBelow(some: seq<nat>, all: seq<nat>, p: nat)
    requires Below(all, p) && forall q :: q in some ==> q in all
    ensures Below(some, p)
  {
    forall i | 0 <= i < |some| ensures some[i] < p {
      assert some[i] in all;
    }
  }

  lemma PicksMore(places: seq<nat>, frames: seq<Frame>, sent: seq<Frame>, from: nat, to: nat, p: nat, to': nat)
    requires Picks(places, frames, sent, from, to) && to <= to'
    requires from <= p < to' && p < |sent| && Below(places, p)
    ensures Picks(places, frames, sent, from, to') && Picks(places + [p], frames + [sent[p]], sent, from, to')
  {
  }

  lemma PicksLength(places: seq<nat>, frames: seq<Frame>, sent: seq<Frame>, from: nat, to: nat)
    requires Picks(places, frames, sent, from, to)
    ensures |places| == |frames|
    ensures forall i :: 0 <= i < |places| ==> from <= places[i] < to && places[i] < |sent| && sent[places[i]] == frames[i]
  {
  }

  lemma PicksWiden(places: seq<nat>, frames: seq<Frame>, sent: seq<Frame>, from: nat, to: nat, to': nat)
    requires Picks(places, frames, sent, from, to) && to <= to'
    ensures Picks(places, frames, sent, from, to')
  {
  }

  lemma PicksFront(all: seq<nat>, frames: seq<Frame>, sent: seq<Frame>, from: nat, to: nat)
    requires Picks(all, frames, sent, from, to) && all != []
    ensures Picks(all[..|all| - 1], frames[..|frames| - 1], sent, from, to)
    ensures Below(all[..|all| - 1], all[|all| - 1])
  {
  }

  lemma PicksSuffix(places: seq<nat>, frames: seq<Frame>, sent: seq<Frame>, from: nat, to: nat, n: nat)
    requires Picks(places, frames, sent, from, to) && n <= |frames|
    ensures Picks(places[n..], frames[n..], sent, from, to)
  {
  }

  lemma LabelledFrame(sent: seq<Frame>, f: Frame)
    requires Labelled(sent) && f in sent
    ensures f.codec == f.made
  {
  }

  lemma {:induction false} DeliveredPlaces(rx: seq<Received>, sent: seq<Frame>, from: nat, to: nat) returns (places: seq<nat>)
    requires Delivers(rx, sent, from, to)
    ensures Picks(places, Frames(rx), sent, from, to)
  {
    if rx == [] {
      places := [];
    } else {
      match rx[|rx| - 1]
      case Got(f) =>
        var before := DeliveredPlaces(rx[..|rx| - 1], sent, from, to - 1);
        places := before + [to - 1];
        PicksMore(before, Frames(rx[..|rx| - 1]), sent, from, to - 1, to - 1, to);
      case Lagged(n) =>
        places := DeliveredPlaces(rx[..|rx| - 1], sent, from, to - n);
        PicksWiden(places, Frames(rx[..|rx| - 1]), sent, from, to - n, to);
        assert Frames(rx) == Frames(rx[..|rx| - 1]);
    }
  }

  lemma {:induction false} MatchingPlaces(frames: seq<Frame>, codec: Codec, all: seq<nat>, sent: seq<Frame>, from: nat, to: nat)
      returns (places: seq<nat>)
    requires Picks(all, frames, sent, from, to)
    ensures Picks(places, Matching(frames, codec), sent, from, to)
    ensures forall p :: p in places ==> p in all
    ensures forall f :: f in Matching(frames, codec) ==> f.codec == codec
  {
    hide Picks;
    if frames == [] {
      PicksNothing(sent, from, to);
      places := [];
    } else {
      PicksLength(all, frames, sent, from, to);
      PicksFront(all, frames, sent, from, to);
      var front := all[..|all| - 1];
      var before := MatchingPlaces(frames[..|frames| - 1], codec, front, sent, from, to);
      assert forall p :: p in before ==> p in front && p in all;
      if frames[|frames| - 1].codec == codec {
        SomeBelow(before, front, all[|all| - 1]);
        PicksMore(before, Matching(frames[..|frames| - 1], codec), sent, from, to, all[|all| - 1], to);
        assert sent[all[|all| - 1]] == frames[|frames| - 1];
        places := before + [all[|all| - 1]];
      } else {
        assert Matching(frames, codec) == Matching(frames[..|frames| - 1], codec);
        places := before;
      }
    }
  }

  /** What a peer is given: frames its own codec really made, in the order in which they were broadcast
      since it subscribed, beginning with a keyframe; nothing of its codec that it received after that
      keyframe is missing. */
  lemma PeerGetsItsCodec(sent: seq<Frame>, rx: seq<Received>, from: nat, to: nat, codec: Codec) returns (places: seq<nat>)
    requires Labelled(sent) && Delivers(rx, sent, from, to)
    ensures var written := FromKeyframe(Matching(Frames(rx), codec));
      && Picks(places, written, sent, from, to)
      && (forall f :: f in written ==> f.made == codec)
      && (written == [] || written[0].keyframe)
  {
    hide Delivers, Frames, Matching, FromKeyframe, Picks, Labelled;
    var all := DeliveredPlaces(rx, sent, from, to);
    var matching := Matching(Frames(rx), codec);
    var matched := MatchingPlaces(Frames(rx), codec, all, sent, from, to);
    BeginsWithKeyframe(matching);
    var written := FromKeyframe(matching);
    PicksLength(matched, matching, sent, from, to);
    places := matched[|matched| - |written|..];
    PicksSuffix(matched, matching, sent, from, to, |matching| - |written|);
    forall f | f in written ensures f.made == codec {
      var i :| 0 <= i < |written| && written[i] == f;
      PicksLength(places, written, sent, from, to);
      assert sent[places[i]] == f && f in sent && f in matching;
      LabelledFrame(sent, f);
    }
  }
}
