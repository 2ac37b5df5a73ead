/** The benchmark score of an encoder, over the reals. */
module Score {
  import opened Bytes

  datatype Metrics = Metrics(
    requestedFps: real, encodedFps: real, presentedFps: Option<real>, encodeP95: real, mbps: real,
    cpuPercent: Option<real>, workingSet: Option<real>, dropPercent: real, freezes: Option<nat>,
    quality: Option<real>)

  const MAX_ENCODE_FRACTION := 0.72
  const MIN_FPS_FRACTION := 0.92
  const MAX_DROP_PERCENT := 5.0

  function Max(a: real, b: real): real { if a >= b then a else b }

  function Clamp01(x: real): (r: real)
    ensures 0.0 <= r <= 1.0
  {
    if x < 0.0 then 0.0 else if x > 1.0 then 1.0 else x
  }

  function Budget(m: Metrics): (r: real)
    ensures r > 0.0
  {
    var fps := Max(m.requestedFps, 1.0);
    PositiveQuotient(1000.0, fps);
    1000.0 / fps
  }

  lemma PositiveQuotient(a: real, b: real)
    requires a > 0.0 && b > 0.0
    ensures a / b > 0.0
  {
    assert (a / b) * b == a;
    SignOfProduct(a / b, b);
  }

  lemma SignOfProduct(q: real, b: real)
    requires b > 0.0
    ensures q <= 0.0 ==> q * b <= 0.0
  {
  }

  function ActualFps(m: Metrics): real { if m.presentedFps.Some? then m.presentedFps.value else m.encodedFps }

  /** The four gates. */
  predicate Passes(m: Metrics) {
    && ActualFps(m) >= m.requestedFps * MIN_FPS_FRACTION
    && m.encodeP95 <= Budget(m) * MAX_ENCODE_FRACTION
    && m.dropPercent <= MAX_DROP_PERCENT
    && !(m.freezes.Some? && m.freezes.value > 0)
  }

  function Latency(m: Metrics): real { Clamp01(1.0 - m.encodeP95 / Budget(m)) * 35.0 }
  function Stability(m: Metrics): real { Clamp01(ActualFps(m) / Max(m.requestedFps, 1.0)) * 25.0 }
  function Bandwidth(m: Metrics): real { Clamp01(1.0 - m.mbps / 20.0) * 18.0 }
  function Cpu(m: Metrics): real { if m.cpuPercent.None? then 7.5 else Clamp01(1.0 - m.cpuPercent.value / 100.0) * 10.0 }
  function Memory(m: Metrics): real { if m.workingSet.None? then 4.5 else Clamp01(1.0 - m.workingSet.value / 2048.0) * 6.0 }
  function Quality(m: Metrics): real { if m.quality.None? then 3.0 else Clamp01(m.quality.value) * 6.0 }

  /** `score_auto_candidate`: none when a gate rejects. */
  function ScoreOf(m: Metrics): Option<real> {
    if !Passes(m) then None
    else Some(Bandwidth(m) + Cpu(m) + Stability(m) + Latency(m) + Memory(m) + Quality(m))
  }

  lemma QuotientGrows(a: real, b: real, c: real)
    requires a <= b && c > 0.0
    ensures a / c <= b / c
  {
    var p, q := a / c, b / c;
    assert p * c == a && q * c == b;
    ProductGrows(q, p, c);
  }

  lemma ProductGrows(a: real, b: real, c: real)
    requires c > 0.0
    ensures a < b ==> a * c < b * c
  {
    var d := b - a;
    assert b * c - a * c == d * c;
    SignOfProduct(-d, c);
    assert d > 0.0 ==> d * c > 0.0;
  }

  lemma QuotientOfProduct(a: real, c: real)
    requires c > 0.0
    ensures (c * a) / c == a && (a * c) / c == a
  {
  }

  /** The lowest score the gates let through at a requested rate. */
  function LowestScore(requestedFps: real): real { 9.8 + 23.0 * Clamp01(requestedFps) }

  lemma LatencyFromGate(m: Metrics)
    requires m.encodeP95 <= Budget(m) * MAX_ENCODE_FRACTION
    ensures Latency(m) >= 9.8
    ensures m.encodeP95 == Budget(m) * MAX_ENCODE_FRACTION ==> Latency(m) == 9.8
  {
    QuotientGrows(m.encodeP95, Budget(m) * MAX_ENCODE_FRACTION, Budget(m));
    QuotientOfProduct(MAX_ENCODE_FRACTION, Budget(m));
  }

  lemma StabilityFromGate(m: Metrics)
    requires ActualFps(m) >= m.requestedFps * MIN_FPS_FRACTION
    ensures Stability(m) >= 23.0 * Clamp01(m.requestedFps)
    ensures ActualFps(m) == m.requestedFps * MIN_FPS_FRACTION ==> Stability(m) == 23.0 * Clamp01(m.requestedFps)
  {
    var r := m.requestedFps;
    QuotientGrows(r * MIN_FPS_FRACTION, ActualFps(m), Max(r, 1.0));
    if r >= 1.0 {
      QuotientOfProduct(MIN_FPS_FRACTION, r);
    } else {
      QuotientOfProduct(r * MIN_FPS_FRACTION, 1.0);
    }
  }

  /** A score lies between the lowest for its rate, which is 32.8 from one frame a second on, and 100. */
  lemma ScoreIsBounded(m: Metrics)
    requires Passes(m)
    ensures LowestScore(m.requestedFps) <= ScoreOf(m).value <= 100.0
    ensures m.requestedFps >= 1.0 ==> LowestScore(m.requestedFps) == 32.8
  {
    LatencyFromGate(m);
    StabilityFromGate(m);
    hide Budget;
  }

  /** Everything as bad as the gates allow. */
  function Slowest(requestedFps: real): Metrics {
    Metrics(requestedFps, requestedFps * MIN_FPS_FRACTION, None, 1000.0 / Max(requestedFps, 1.0) * MAX_ENCODE_FRACTION,
            20.0, Some(100.0), Some(2048.0), MAX_DROP_PERCENT, None, Some(0.0))
  }

  lemma SlowestRest(requestedFps: real)
    ensures var m := Slowest(requestedFps); Bandwidth(m) == 0.0 && Cpu(m) == 0.0 && Memory(m) == 0.0 && Quality(m) == 0.0
  {
    QuotientOfProduct(1.0, 20.0);
    QuotientOfProduct(1.0, 100.0);
    QuotientOfProduct(1.0, 2048.0);
  }

  lemma SlowestPasses(requestedFps: real)
    ensures var m := Slowest(requestedFps);
      && Passes(m) && ActualFps(m) == requestedFps * MIN_FPS_FRACTION && m.encodeP95 == Budget(m) * MAX_ENCODE_FRACTION
  {
  }

  /** The lowest score is reached at every rate. */
  lemma LowestScoreIsReached(requestedFps: real)
    ensures var m := Slowest(requestedFps); Passes(m) && ScoreOf(m).value == LowestScore(requestedFps)
  {
    hide Latency, Stability, Bandwidth, Cpu, Memory, Quality, Budget, Passes, Slowest, Clamp01;
    var m := Slowest(requestedFps);
    SlowestPasses(requestedFps);
    assert m.requestedFps == requestedFps by { SlowestRate(requestedFps); }
    Gates(m);
    LatencyFromGate(m);
    StabilityFromGate(m);
    SlowestRest(requestedFps);
  }

  lemma SlowestRate(requestedFps: real)
    ensures Slowest(requestedFps).requestedFps == requestedFps
  {
  }

  lemma Gates(m: Metrics)
    requires Passes(m)
    ensures ActualFps(m) >= m.requestedFps * MIN_FPS_FRACTION && m.encodeP95 <= Budget(m) * MAX_ENCODE_FRACTION
  {
  }

  /** Every measurement at a requested rate that passes the gates scores at least 32.8 if and only if the rate
      is at least one frame a second: below it the frame-rate gate shrinks with the request, the stability term
      does not. */
  lemma SlowRequestsScoreLess(requestedFps: real)
    ensures (forall m: Metrics :: m.requestedFps == requestedFps && Passes(m) ==> ScoreOf(m).value >= 32.8) <==> requestedFps >= 1.0
  {
    hide Passes, ScoreOf, Slowest;
    LowestScoreIsReached(requestedFps);
    SlowestRate(requestedFps);
    assert ScoreOf(Slowest(requestedFps)).Some? by { Scored(Slowest(requestedFps)); }
    forall m: Metrics | m.requestedFps == requestedFps && Passes(m) && requestedFps >= 1.0
      ensures ScoreOf(m).Some? && ScoreOf(m).value >= 32.8
    {
      Scored(m);
      ScoreIsBounded(m);
    }
  }

  lemma Scored(m: Metrics)
    requires Passes(m)
    ensures ScoreOf(m).Some?
  {
  }

  predicate NoMore(a: Option<real>, b: Option<real>) { a == b || (a.Some? && b.Some? && a.value <= b.value) }

  /** At least as good in everything that is measured, for the same request. */
  predicate AtLeastAsGood(n: Metrics, m: Metrics) {
    && n.requestedFps == m.requestedFps && ActualFps(n) >= ActualFps(m)
    && n.encodeP95 <= m.encodeP95 && n.mbps <= m.mbps && n.dropPercent <= m.dropPercent
    && NoMore(n.cpuPercent, m.cpuPercent) && NoMore(n.workingSet, m.workingSet) && NoMore(m.quality, n.quality)
    && (n.freezes.Some? ==> n.freezes.value == 0 || (m.freezes.Some? && n.freezes.value <= m.freezes.value))
  }

  /** Getting better never costs the gates or the score. */
  lemma BetterScoresNoLess(n: Metrics, m: Metrics)
    requires AtLeastAsGood(n, m) && Passes(m)
    ensures Passes(n) && ScoreOf(n).value >= ScoreOf(m).value
  {
    QuotientGrows(n.encodeP95, m.encodeP95, Budget(m));
    QuotientGrows(ActualFps(m), ActualFps(n), Max(m.requestedFps, 1.0));
    assert Latency(n) >= Latency(m);
    assert Stability(n) >= Stability(m);
    assert Bandwidth(n) >= Bandwidth(m);
    assert Cpu(n) >= Cpu(m);
    assert Memory(n) >= Memory(m);
    assert Quality(n) >= Quality(m);
  }

  /** What a missing measurement is worth: as much as a quarter of the processor used, 512 MiB of memory used, and
      half of the best quality. */
  lemma MissingIsWorth(m: Metrics)
    ensures Cpu(m.(cpuPercent := None)) == Cpu(m.(cpuPercent := Some(25.0)))
    ensures Memory(m.(workingSet := None)) == Memory(m.(workingSet := Some(512.0)))
    ensures Quality(m.(quality := None)) == Quality(m.(quality := Some(0.5)))
  {
  }

  /** What the best measurements are worth: 18 points for the bandwidth, 10 for the processor, 25 for a stable rate,
      35 for the latency, 6 for the memory and 6 for the quality; and nothing from 20 Mbit/s, the whole processor
      and 2 GiB on. */
  lemma TermsAreWeighted(m: Metrics)
    ensures m.mbps <= 0.0 ==> Bandwidth(m) == 18.0
    ensures m.mbps >= 20.0 ==> Bandwidth(m) == 0.0
    ensures m.cpuPercent == Some(0.0) ==> Cpu(m) == 10.0
    ensures m.cpuPercent == Some(100.0) ==> Cpu(m) == 0.0
    ensures m.workingSet == Some(0.0) ==> Memory(m) == 6.0
    ensures m.workingSet == Some(2048.0) ==> Memory(m) == 0.0
    ensures m.quality == Some(1.0) ==> Quality(m) == 6.0
    ensures m.requestedFps >= 1.0 && ActualFps(m) == m.requestedFps ==> Stability(m) == 25.0
    ensures m.encodeP95 == 0.0 ==> Latency(m) == 35.0
    ensures m.encodeP95 == Budget(m) ==> Latency(m) == 0.0
  {
    QuotientOfProduct(1.0, Max(m.requestedFps, 1.0));
    QuotientOfProduct(1.0, Budget(m));
    QuotientOfProduct(0.0, Budget(m));
    QuotientOfProduct(1.0, 20.0);
    if m.mbps >= 20.0 { QuotientGrows(20.0, m.mbps, 20.0); }
    if m.mbps <= 0.0 { QuotientGrows(m.mbps, 0.0, 20.0); }
  }

  /** Who is not scored at all: a rate below 92 in a hundred of the requested one, a slow frame in twenty that takes
      more than 72 in a hundred of the time there is for a frame, more than 5 in a hundred frames dropped, or any
      freeze. */
  lemma RejectedIff(m: Metrics)
    ensures ScoreOf(m).None? <==>
      || ActualFps(m) < 0.92 * m.requestedFps
      || m.encodeP95 > 0.72 * (1000.0 / Max(m.requestedFps, 1.0))
      || m.dropPercent > 5.0
      || (m.freezes.Some? && m.freezes.value != 0)
  {
    Commuted(m.requestedFps, 0.92);
    Commuted(Budget(m), 0.72);
  }

  lemma Commuted(a: real, b: real)
    ensures a * b == b * a
  {
  }
}
