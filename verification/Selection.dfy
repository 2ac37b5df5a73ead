/** The choice of an encoder: by hand, by the best verified benchmark, or by a fixed order. */
module Selection {
  import opened Bytes
  import opened EncodeLoop

  datatype Capability = Capability(id: string, codec: Codec, hardware: bool, usable: bool, name: string)

  datatype Observation = Observation(
    schemaVersion: nat, appVersion: string, runtime: string, encoderId: string, profile: nat, maxWidth: nat,
    requestedFps: nat, verified: bool, passedGates: bool, score: Option<real>)

  datatype Settings = Settings(encoder: Mode, profile: nat, maxWidth: nat, maxFps: nat)

  /** An empty user agent: no browser has reported yet. */
  datatype Browser = Browser(userAgent: string, h264: bool, hevc: bool, av1: bool)

  function ModeOf(c: Capability): Mode {
    match c.codec
    case H264 => if c.hardware then H264Hardware else H264Software
    case Hevc => if c.hardware then HevcHardware else Auto
    case Av1 => if c.hardware then Av1Hardware else Auto
  }

  predicate Reported(b: Browser, codec: Codec) { match codec case H264 => b.h264 case Hevc => b.hevc case Av1 => b.av1 }

  /** The first usable encoder of a mode. */
  function Functional(capabilities: seq<Capability>, mode: Mode): (r: Option<Capability>)
    ensures r.Some? ==> r.value in capabilities && r.value.usable && ModeOf(r.value) == mode
    ensures r.None? ==> forall c :: c in capabilities && c.usable ==> ModeOf(c) != mode
  {
    if capabilities == [] then None
    else if ModeOf(capabilities[0]) == mode && capabilities[0].usable then Some(capabilities[0])
    else Functional(capabilities[1..], mode)
  }

  /** A benchmark that counts for this encoder, these settings, this browser and this program version. */
  predicate Counts(o: Observation, c: Capability, s: Settings, b: Browser, appVersion: string) {
    && o.schemaVersion == 1 && o.appVersion == appVersion && o.runtime == b.userAgent && o.encoderId == c.id
    && o.profile == s.profile && o.maxWidth == s.maxWidth && o.requestedFps == s.maxFps
    && o.verified && o.passedGates
  }

  predicate Eligible(c: Capability, b: Browser) { c.usable && Reported(b, c.codec) }

  function ScoreIn(o: Observation): real { if o.score.Some? then o.score.value else 0.0 }

  /** `max_by`: of several greatest the last. */
  function Better(best: Option<Observation>, o: Observation): Observation {
    if best.Some? && ScoreIn(best.value) > ScoreIn(o) then best.value else o
  }

  function BestResult(learned: seq<Observation>, c: Capability, s: Settings, b: Browser, v: string): Option<Observation> {
    if learned == [] then None
    else
      var best, last := BestResult(learned[..|learned| - 1], c, s, b, v), learned[|learned| - 1];
      if Counts(last, c, s, b, v) then Some(Better(best, last)) else best
  }

  type Candidate = (Capability, Observation)

  function BestCandidate(capabilities: seq<Capability>, learned: seq<Observation>, s: Settings, b: Browser, v: string): Option<Candidate> {
    if capabilities == [] then None
    else
      var best, c := BestCandidate(capabilities[..|capabilities| - 1], learned, s, b, v), capabilities[|capabilities| - 1];
      var result := if Eligible(c, b) then BestResult(learned, c, s, b, v) else None;
      if result.None? || (best.Some? && ScoreIn(best.value.1) > ScoreIn(result.value)) then best
      else Some((c, result.value))
  }

  function OrElse(a: Option<Capability>, b: Option<Capability>): Option<Capability> { if a.Some? then a else b }

  /** `select_encoder`; None stands for its error. */
  function SelectEncoder(s: Settings, b: Browser, capabilities: seq<Capability>, learned: seq<Observation>, v: string): Option<Capability> {
    if s.encoder != Auto then
      if b.userAgent != "" && !Reported(b, CodecOf(s.encoder)) then None else Functional(capabilities, s.encoder)
    else
      var measured := if b.userAgent != "" then BestCandidate(capabilities, learned, s, b, v) else None;
      if measured.Some? then Some(measured.value.0)
      else
        var safe := OrElse(Functional(capabilities, H264Hardware), Functional(capabilities, H264Software));
        if b.hevc then OrElse(Functional(capabilities, HevcHardware), safe) else safe
  }

  // ----- what is selected -----

  lemma {:induction false} BestResultIsBest(learned: seq<Observation>, c: Capability, s: Settings, b: Browser, v: string)
    ensures var r := BestResult(learned, c, s, b, v);
      && (r.Some? ==> r.value in learned && Counts(r.value, c, s, b, v))
      && forall o :: o in learned && Counts(o, c, s, b, v) ==> r.Some? && ScoreIn(r.value) >= ScoreIn(o)
  {
    hide Counts;
    if learned != [] {
      BestResultIsBest(learned[..|learned| - 1], c, s, b, v);
      assert forall o :: o in learned <==> o in learned[..|learned| - 1] || o == learned[|learned| - 1];
    }
  }

  predicate IsPair(c: Capability, o: Observation, capabilities: seq<Capability>, learned: seq<Observation>,
                   s: Settings, b: Browser, v: string) {
    c in capabilities && Eligible(c, b) && o in learned && Counts(o, c, s, b, v)
  }

  /** The nested maximum is the maximum over all eligible pairs of an encoder and a result. */
  lemma {:induction false} BestCandidateIsBest(capabilities: seq<Capability>, learned: seq<Observation>,
                                               s: Settings, b: Browser, v: string)
    ensures var r := BestCandidate(capabilities, learned, s, b, v);
      && (r.Some? ==> IsPair(r.value.0, r.value.1, capabilities, learned, s, b, v))
      && forall c, o :: IsPair(c, o, capabilities, learned, s, b, v) ==> r.Some? && ScoreIn(r.value.1) >= ScoreIn(o)
  {
    hide Counts, BestResult, Eligible;
    if capabilities != [] {
      var front, last := capabilities[..|capabilities| - 1], capabilities[|capabilities| - 1];
      BestCandidateIsBest(front, learned, s, b, v);
      BestResultIsBest(learned, last, s, b, v);
      forall c, o | IsPair(c, o, capabilities, learned, s, b, v)
        ensures var r := BestCandidate(capabilities, learned, s, b, v); r.Some? && ScoreIn(r.value.1) >= ScoreIn(o)
      {
        if c in front { assert IsPair(c, o, front, learned, s, b, v); } else { assert c == last; }
      }
    }
  }

  /** Whatever is selected can be used here, and is what was asked for when something was. */
  lemma SelectedIsUsable(s: Settings, b: Browser, capabilities: seq<Capability>, learned: seq<Observation>, v: string)
    ensures var r := SelectEncoder(s, b, capabilities, learned, v);
      r.Some? ==> r.value in capabilities && r.value.usable && (s.encoder != Auto ==> ModeOf(r.value) == s.encoder)
  {
    BestCandidateIsBest(capabilities, learned, s, b, v);
    hide Counts, BestCandidate;
  }

  predicate Has(capabilities: seq<Capability>, mode: Mode) { exists c :: c in capabilities && c.usable && ModeOf(c) == mode }

  /** When a selection succeeds. */
  lemma SelectionSucceedsIff(s: Settings, b: Browser, capabilities: seq<Capability>, learned: seq<Observation>, v: string)
    ensures SelectEncoder(s, b, capabilities, learned, v).Some? <==>
      if s.encoder != Auto then (b.userAgent != "" ==> Reported(b, CodecOf(s.encoder))) && Has(capabilities, s.encoder)
      else
        || Has(capabilities, H264Hardware) || Has(capabilities, H264Software)
        || (b.hevc && Has(capabilities, HevcHardware))
        || (b.userAgent != "" && exists c, o :: IsPair(c, o, capabilities, learned, s, b, v))
  {
    BestCandidateIsBest(capabilities, learned, s, b, v);
    hide Counts, BestCandidate, IsPair;
  }

  /** Auto with a browser that has reported: a verified benchmark wins over the fixed order, and the one
      that wins scores at least as much as every other eligible one. */
  lemma AutoPicksTheBest(s: Settings, b: Browser, capabilities: seq<Capability>, learned: seq<Observation>, v: string,
                         c: Capability, o: Observation)
    requires s.encoder == Auto && b.userAgent != "" && IsPair(c, o, capabilities, learned, s, b, v)
    ensures var r := SelectEncoder(s, b, capabilities, learned, v);
      r.Some? && exists won :: IsPair(r.value, won, capabilities, learned, s, b, v) && ScoreIn(won) >= ScoreIn(o)
  {
    BestCandidateIsBest(capabilities, learned, s, b, v);
    hide Counts, BestCandidate;
    var best := BestCandidate(capabilities, learned, s, b, v).value;
    assert IsPair(best.0, best.1, capabilities, learned, s, b, v);
  }

  /** The mode of an encoder is a mode of its codec, except for software encoders that no mode stands for. */
  lemma ModeIsOfCodecIff(c: Capability)
    ensures CodecOf(ModeOf(c)) == c.codec <==> c.codec.H264? || c.hardware
  {
  }

  /** What is selected by hand encodes with the codec of the mode asked for, in hardware if that was asked for. */
  lemma HandPicksItsCodec(s: Settings, b: Browser, capabilities: seq<Capability>, learned: seq<Observation>, v: string)
    requires s.encoder != Auto && SelectEncoder(s, b, capabilities, learned, v).Some?
    ensures var c := SelectEncoder(s, b, capabilities, learned, v).value;
      && c.codec == (match s.encoder case HevcHardware => Hevc case Av1Hardware => Av1 case _ => H264)
      && (c.hardware <==> s.encoder != H264Software)
      && (b.userAgent != "" ==> Reported(b, c.codec))
  {
    SelectedIsUsable(s, b, capabilities, learned, v);
  }

  predicate HasHardware(capabilities: seq<Capability>, codec: Codec) {
    exists c :: c in capabilities && c.usable && c.hardware && c.codec == codec
  }

  /** Auto without an eligible benchmark: HEVC in hardware if the browser plays it, else H.264 in hardware, and in
      software only if there is no hardware. */
  lemma AutoPrefersHardware(s: Settings, b: Browser, capabilities: seq<Capability>, learned: seq<Observation>, v: string)
    requires s.encoder == Auto && SelectEncoder(s, b, capabilities, learned, v).Some?
    requires b.userAgent == "" || forall c, o :: !IsPair(c, o, capabilities, learned, s, b, v)
    ensures var c := SelectEncoder(s, b, capabilities, learned, v).value;
      if b.hevc && HasHardware(capabilities, Hevc) then c.codec == Hevc && c.hardware
      else c.codec == H264 && (c.hardware <==> HasHardware(capabilities, H264))
  {
    BestCandidateIsBest(capabilities, learned, s, b, v);
    hide Counts, BestCandidate, IsPair;
    assert forall c :: c in capabilities && c.usable ==>
      (ModeOf(c) == HevcHardware <==> c.codec == Hevc && c.hardware) && (ModeOf(c) == H264Hardware <==> c.codec == H264 && c.hardware);
  }

  /** Which results count for an encoder: of this schema and program version, of this browser, of this encoder, at
      the profile, width and rate of the settings, verified and through the gates. */
  lemma CountsIff(o: Observation, c: Capability, s: Settings, b: Browser, v: string)
    ensures Counts(o, c, s, b, v) <==>
      (o.schemaVersion, o.appVersion, o.runtime, o.encoderId) == (1, v, b.userAgent, c.id)
      && (o.profile, o.maxWidth, o.requestedFps) == (s.profile, s.maxWidth, s.maxFps) && o.verified && o.passedGates
  {
  }

  /** Of equally good results the last one stands. */
  lemma {:induction false} LastOfEqualResults(learned: seq<Observation>, c: Capability, s: Settings, b: Browser, v: string)
    requires BestResult(learned, c, s, b, v).Some?
    ensures var r := BestResult(learned, c, s, b, v).value;
      exists k :: 0 <= k < |learned| && learned[k] == r && IsLastBest(learned, k, c, s, b, v)
  {
    hide Counts;
    var front, last := learned[..|learned| - 1], learned[|learned| - 1];
    BestResultIsBest(learned, c, s, b, v);
    var r := BestResult(learned, c, s, b, v).value;
    if Counts(last, c, s, b, v) && (BestResult(front, c, s, b, v).None? || ScoreIn(BestResult(front, c, s, b, v).value) <= ScoreIn(last)) {
      assert learned[|learned| - 1] == r && IsLastBest(learned, |learned| - 1, c, s, b, v);
    } else {
      LastOfEqualResults(front, c, s, b, v);
      var k :| 0 <= k < |front| && front[k] == r && IsLastBest(front, k, c, s, b, v);
      assert forall j :: k < j < |front| ==> learned[j] == front[j];
      assert learned[k] == r && IsLastBest(learned, k, c, s, b, v);
    }
  }

  predicate IsLastBest(learned: seq<Observation>, k: nat, c: Capability, s: Settings, b: Browser, v: string)
    requires k < |learned|
  {
    forall j :: k < j < |learned| && Counts(learned[j], c, s, b, v) ==> ScoreIn(learned[j]) < ScoreIn(learned[k])
  }

  /** And of encoders with equally good results the last. */
  lemma {:induction false} LastOfEqualEncoders(capabilities: seq<Capability>, learned: seq<Observation>, s: Settings, b: Browser, v: string)
    requires BestCandidate(capabilities, learned, s, b, v).Some?
    ensures var r := BestCandidate(capabilities, learned, s, b, v).value;
      exists k :: 0 <= k < |capabilities| && capabilities[k] == r.0 && NoneLater(capabilities, k, r.1, learned, s, b, v)
  {
    hide Counts, Eligible, BestResult;
    var front, last := capabilities[..|capabilities| - 1], capabilities[|capabilities| - 1];
    var r := BestCandidate(capabilities, learned, s, b, v).value;
    var best := BestCandidate(front, learned, s, b, v);
    var result := if Eligible(last, b) then BestResult(learned, last, s, b, v) else None;
    if result.None? || (best.Some? && ScoreIn(best.value.1) > ScoreIn(result.value)) {
      LastOfEqualEncoders(front, learned, s, b, v);
      BestResultIsBest(learned, last, s, b, v);
      var k :| 0 <= k < |front| && front[k] == r.0 && NoneLater(front, k, r.1, learned, s, b, v);
      assert forall j :: k < j < |front| ==> capabilities[j] == front[j];
      assert capabilities[k] == r.0 && NoneLater(capabilities, k, r.1, learned, s, b, v);
    } else {
      assert capabilities[|capabilities| - 1] == r.0 && NoneLater(capabilities, |capabilities| - 1, r.1, learned, s, b, v);
    }
  }

  predicate NoneLater(capabilities: seq<Capability>, k: nat, won: Observation, learned: seq<Observation>,
                      s: Settings, b: Browser, v: string)
    requires k < |capabilities|
  {
    forall j, o :: k < j < |capabilities| && o in learned && Eligible(capabilities[j], b) && Counts(o, capabilities[j], s, b, v) ==>
      ScoreIn(o) < ScoreIn(won)
  }
}
