/** What the host's bookkeeping sees of a pointer batch after the wire is what the browser put into it. */
module PointerWire {
  import opened Bytes
  import opened Floats
  import opened Protocol
  import Twist
  import BrowserCodec
  import WireTheorems
  import Metrics

  function JsMark(s: BrowserCodec.JsSample): Metrics.Mark {
    Metrics.Mark(s.device, s.action, s.pointerId % TWO32, s.sequence % TWO32)
  }

  /** The part of a batch that the bookkeeping looks at, before it is encoded. */
  function JsPacket(b: BrowserCodec.JsBatch): Metrics.Packet {
    Metrics.Packet(b.sequence % TWO32,
                   seq(|b.samples|, i requires 0 <= i < |b.samples| => JsMark(b.samples[i])))
  }

  /** Whatever becomes of the positions, pressures and times: the packet arrives as a pointer batch with
      the same number, and its samples have the same devices, actions, pointers and numbers in the same
      order. */
  lemma WireKeepsPackets(b: BrowserCodec.JsBatch)
    requires |b.samples| <= MAX_SAMPLES
    ensures var r := Decode(BatchBytes(BrowserCodec.JsSanitizedBatch(b)));
      && r.Ok? && r.value.PointerMessage?
      && Metrics.PacketOf(r.value.batch) == JsPacket(b)
  {
    hide BatchBytes, Parse, BrowserCodec.ClampedSingle, Clamp, FiniteOrZero, FiniteOrZero64;
    hide Twist.JsWrapTwist, Twist.WrapTwist;
    var sent := BrowserCodec.JsSanitizedBatch(b);
    WireTheorems.LayoutParses(PointerMessage(sent));
    var got := Sanitized(PointerMessage(sent)).batch;
    forall i | 0 <= i < |b.samples| ensures Metrics.MarkOf(got.samples[i]) == JsMark(b.samples[i]) {
      assert got.samples[i] == SanitizedSample(sent.samples[i]);
    }
    assert Metrics.Marks(got.samples) == JsPacket(b).marks;
  }
}
