/** From a point in the browser to a pixel of the monitor and to Windows' desktop coordinates. The
    browser's and the first part of the host's arithmetic are over the reals. */
module Geometry {
  import opened Bytes

  datatype FitMode = Fit | Fill | OneToOne

  datatype Rect = Rect(left: real, top: real, width: real, height: real)
  datatype Point = Point(u: real, v: real)

  function Scale(viewWidth: real, viewHeight: real, width: real, height: real, mode: FitMode): real
    requires width > 0.0 && height > 0.0
  {
    var h, v := viewWidth / width, viewHeight / height;
    match mode
    case OneToOne => 1.0
    case Fit => if h <= v then h else v
    case Fill => if h <= v then v else h
  }

  /** `calculateContentRect`, and `content_rect`. */
  function ContentRect(viewWidth: real, viewHeight: real, width: real, height: real, mode: FitMode): Rect {
    if viewWidth <= 0.0 || viewHeight <= 0.0 || width <= 0.0 || height <= 0.0 then Rect(0.0, 0.0, 0.0, 0.0)
    else
      var scale := Scale(viewWidth, viewHeight, width, height, mode);
      var w, h := width * scale, height * scale;
      Rect((viewWidth - w) / 2.0, (viewHeight - h) / 2.0, w, h)
  }

  function Clamp01(x: real): real { if x < 0.0 then 0.0 else if x > 1.0 then 1.0 else x }

  /** `normalizePoint`, and `VideoContentRect::normalize`. */
  function Normalize(x: real, y: real, r: Rect, clamp: bool): Option<Point> {
    if r.width <= 0.0 || r.height <= 0.0 then None
    else
      var u, v := (x - r.left) / r.width, (y - r.top) / r.height;
      if clamp then Some(Point(Clamp01(u), Clamp01(v)))
      else if u < 0.0 || u > 1.0 || v < 0.0 || v > 1.0 then None
      else Some(Point(u, v))
  }

  // ----- the content rectangle -----

  lemma QuotientTimes(a: real, b: real)
    requires b != 0.0
    ensures (a / b) * b == a
  {
  }

  lemma Ordered(a: real, b: real, c: real)
    requires c > 0.0
    ensures a <= b <==> a * c <= b * c
  {
    var d := b - a;
    assert b * c - a * c == d * c;
    if d >= 0.0 { assert d * c >= 0.0; } else { assert d * c < 0.0; }
  }

  /** The picture keeps its proportions and is centred; Fit shows all of it and touches two opposite sides,
      Fill leaves no part of the view empty and touches two as well. */
  lemma ContentRectFits(viewWidth: real, viewHeight: real, width: real, height: real, mode: FitMode)
    requires viewWidth > 0.0 && viewHeight > 0.0 && width > 0.0 && height > 0.0
    ensures var r := ContentRect(viewWidth, viewHeight, width, height, mode);
      && r.width * height == r.height * width
      && r.left + r.width / 2.0 == viewWidth / 2.0 && r.top + r.height / 2.0 == viewHeight / 2.0
      && (mode.Fit? ==> r.width <= viewWidth && r.height <= viewHeight)
      && (mode.Fill? ==> r.width >= viewWidth && r.height >= viewHeight)
      && (!mode.OneToOne? ==> r.width == viewWidth || r.height == viewHeight)
      && (mode.OneToOne? ==> r.width == width && r.height == height)
  {
    hide Scale;
    var scale := Scale(viewWidth, viewHeight, width, height, mode);
    ScaleIsChosen(viewWidth, viewHeight, width, height, mode);
    ScaledSide(viewWidth, width, scale);
    ScaledSide(viewHeight, height, scale);
    Rearranged(width, scale, height);
  }

  lemma ScaleIsChosen(viewWidth: real, viewHeight: real, width: real, height: real, mode: FitMode)
    requires width > 0.0 && height > 0.0
    ensures var scale, h, v := Scale(viewWidth, viewHeight, width, height, mode), viewWidth / width, viewHeight / height;
      && (mode.Fit? ==> scale <= h && scale <= v)
      && (mode.Fill? ==> scale >= h && scale >= v)
      && (if mode.OneToOne? then scale == 1.0 else scale == h || scale == v)
  {
  }

  lemma ScaledSide(view: real, size: real, scale: real)
    requires size > 0.0
    ensures scale <= view / size ==> size * scale <= view
    ensures scale >= view / size ==> size * scale >= view
  {
    QuotientTimes(view, size);
    Ordered(scale, view / size, size);
    Ordered(view / size, scale, size);
    Commuted(size, scale);
  }

  lemma Commuted(a: real, b: real)
    ensures a * b == b * a
  {
  }

  lemma Rearranged(a: real, s: real, b: real)
    ensures (a * s) * b == (b * s) * a
  {
    assert (a * s) * b == a * (s * b);
    assert (b * s) * a == a * (b * s);
    assert s * b == b * s;
  }

  // ----- the monitor -----

  const MAX_I32: int := 0x7FFF_FFFF
  const MIN_I32: int := -0x8000_0000

  function SaturateI32(n: int): (r: int)
    ensures MIN_I32 <= r <= MAX_I32
  {
    if n < MIN_I32 then MIN_I32 else if n > MAX_I32 then MAX_I32 else n
  }

  type I32 = x: int | -0x8000_0000 <= x <= 0x7FFF_FFFF

  datatype Target = Target(left: I32, top: I32, width: U32, height: U32)
  datatype Pixel = Pixel(x: I32, y: I32)

  function Span(extent: U32): nat { if extent == 0 then 0 else extent - 1 }

  /** `round` of a number that is not negative. */
  function Round(x: real): int { (x + 0.5).Floor }

  /** How far along the monitor a point exactly is. */
  function Along(u: real, n: nat): real { Clamp01(u) * n as real }

  function Place(start: I32, extent: U32, u: real): I32 {
    SaturateI32(start + SaturateI32(Round(Along(u, Span(extent)))))
  }

  /** `TargetGeometry::map`. */
  function Map(t: Target, p: Point): Pixel { Pixel(Place(t.left, t.width, p.u), Place(t.top, t.height, p.v)) }

  /** A monitor lies within the 32-bit plane. */
  predicate OnPlane(start: I32, extent: U32) { extent <= 0x8000_0000 && start + Span(extent) <= MAX_I32 }

  lemma AlongIsWithin(u: real, n: nat)
    ensures 0.0 <= Along(u, n) <= n as real
    ensures u <= 0.0 ==> Along(u, n) == 0.0
    ensures u >= 1.0 ==> Along(u, n) == n as real
  {
    var c := Clamp01(u);
    if n > 0 { Ordered(0.0, c, n as real); Ordered(c, 1.0, n as real); }
  }

  lemma AlongGrows(u: real, v: real, n: nat)
    requires u <= v
    ensures Along(u, n) <= Along(v, n)
  {
    if n > 0 { Ordered(Clamp01(u), Clamp01(v), n as real); }
  }

  lemma RoundNear(x: real)
    ensures x - 0.5 < Round(x) as real <= x + 0.5
  {
  }

  lemma RoundGrows(x: real, y: real)
    requires x <= y
    ensures Round(x) <= Round(y)
  {
  }

  lemma RoundWhole(n: int)
    ensures Round(n as real) == n
  {
  }

  /** A coordinate on the monitor is a pixel of it, the nearest to the exact position. */
  lemma PlaceIsNear(start: I32, extent: U32, u: real)
    requires OnPlane(start, extent)
    ensures start <= Place(start, extent, u) <= start + Span(extent)
    ensures Near(Place(start, extent, u), start as real + Along(u, Span(extent)))
  {
    hide Along, Round;
    var n := Span(extent);
    var a := Along(u, n);
    AlongIsWithin(u, n);
    RoundNear(a);
    RoundGrows(0.0, a);
    RoundGrows(a, n as real);
    RoundWhole(0);
    RoundWhole(n);
  }

  /** The nearest pixel; from halfway between two the later. */
  predicate Near(pixel: int, exact: real) { exact - 0.5 < pixel as real <= exact + 0.5 }

  lemma PlaceGrows(start: I32, extent: U32, u: real, v: real)
    requires u <= v
    ensures Place(start, extent, u) <= Place(start, extent, v)
  {
    hide Along, Round;
    var n := Span(extent);
    AlongGrows(u, v, n);
    RoundGrows(Along(u, n), Along(v, n));
  }

  /** The ends of the picture are the outermost pixels. */
  lemma EndsMeet(start: I32, extent: U32)
    requires OnPlane(start, extent)
    ensures Place(start, extent, 0.0) == start && Place(start, extent, 1.0) == start + Span(extent)
  {
    hide Along, Round;
    AlongIsWithin(0.0, Span(extent));
    AlongIsWithin(1.0, Span(extent));
    RoundWhole(0);
    RoundWhole(Span(extent));
  }

  /** Every pixel of the monitor is the place of some point of the picture. */
  lemma EveryPixelIsReached(start: I32, extent: U32, k: nat)
    requires OnPlane(start, extent) && k <= Span(extent)
    ensures exists u: real :: 0.0 <= u <= 1.0 && Place(start, extent, u) == start + k
  {
    hide Round, Along;
    var n := Span(extent);
    if n == 0 {
      EndsMeet(start, extent);
      assert Place(start, extent, 0.0) == start + k;
    } else {
      var u := k as real / n as real;
      PixelAlong(k, n);
      RoundWhole(k);
      assert Place(start, extent, u) == start + k;
    }
  }

  lemma PixelAlong(k: nat, n: nat)
    requires k <= n && n > 0
    ensures var u := k as real / n as real; 0.0 <= u <= 1.0 && Along(u, n) == k as real
  {
    var u := k as real / n as real;
    QuotientTimes(k as real, n as real);
    Ordered(0.0, u, n as real);
    Ordered(u, 1.0, n as real);
  }

  // ----- from the browser to the monitor -----

  /** Which browser points become input: with clamping every one, otherwise those on the picture. */
  lemma NormalizesIff(x: real, y: real, r: Rect, clamp: bool)
    ensures Normalize(x, y, r, clamp).Some? <==>
      r.width > 0.0 && r.height > 0.0
      && (clamp || (r.left <= x <= r.left + r.width && r.top <= y <= r.top + r.height))
  {
    if r.width > 0.0 && r.height > 0.0 {
      Inside(x - r.left, r.width);
      Inside(y - r.top, r.height);
    }
  }

  lemma Inside(a: real, b: real)
    requires b > 0.0
    ensures a / b < 0.0 <==> a < 0.0
    ensures a / b > 1.0 <==> a > b
  {
    QuotientTimes(a, b);
    Ordered(0.0, a / b, b);
    Ordered(a / b, 1.0, b);
  }

  lemma NormalizedIsWithin(x: real, y: real, r: Rect, clamp: bool)
    requires Normalize(x, y, r, clamp).Some?
    ensures var p := Normalize(x, y, r, clamp).value; 0.0 <= p.u <= 1.0 && 0.0 <= p.v <= 1.0
  {
  }

  /** The coordinate of the nearest point of a side that begins at `start`. */
  function NearestOn(x: real, start: real, length: real): real {
    if x < start then start else if x > start + length then start + length else x
  }

  /** What normalises lies in the rectangle as the point itself does, or with clamping the nearest point of it. */
  lemma NormalizedIsPlaced(x: real, y: real, r: Rect, clamp: bool)
    requires Normalize(x, y, r, clamp).Some?
    ensures var p := Normalize(x, y, r, clamp).value;
      && p.u * r.width == NearestOn(x, r.left, r.width) - r.left
      && p.v * r.height == NearestOn(y, r.top, r.height) - r.top
    ensures !clamp ==> NearestOn(x, r.left, r.width) == x && NearestOn(y, r.top, r.height) == y
  {
    Inside(x - r.left, r.width);
    Inside(y - r.top, r.height);
    QuotientTimes(x - r.left, r.width);
    QuotientTimes(y - r.top, r.height);
  }

  /** How far along a rectangle's side a point is. */
  lemma QuotientIsPlace(u: real, length: real, offset: real)
    requires length > 0.0 && u * length == offset
    ensures u == offset / length
  {
    QuotientTimes(offset, length);
    Ordered(u, offset / length, length);
    Ordered(offset / length, u, length);
  }

  /** Where on the monitor the point of the picture nearest to a browser coordinate exactly is. */
  function ExactPlace(x: real, start: real, length: real, target: I32, extent: U32): real
    requires length > 0.0
  {
    target as real + (NearestOn(x, start, length) - start) / length * Span(extent) as real
  }

  /** Every browser point that becomes input falls on a pixel of the monitor, the nearest to where its place in
      the picture really is. */
  lemma PointsLandOnTheMonitor(x: real, y: real, r: Rect, clamp: bool, t: Target)
    requires Normalize(x, y, r, clamp).Some? && OnPlane(t.left, t.width) && OnPlane(t.top, t.height)
    ensures r.width > 0.0 && r.height > 0.0
    ensures var pixel := Map(t, Normalize(x, y, r, clamp).value);
      && t.left <= pixel.x <= t.left + Span(t.width) && t.top <= pixel.y <= t.top + Span(t.height)
      && Near(pixel.x, ExactPlace(x, r.left, r.width, t.left, t.width))
      && Near(pixel.y, ExactPlace(y, r.top, r.height, t.top, t.height))
    ensures var p := Normalize(x, y, r, clamp).value; 0.0 <= p.u <= 1.0 && 0.0 <= p.v <= 1.0
  {
    PictureIsPositive(x, y, r, clamp);
    NormalizedIsWithin(x, y, r, clamp);
    NormalizedIsPlaced(x, y, r, clamp);
    hide Normalize, Place, Near, NearestOn, ExactPlace;
    var p := Normalize(x, y, r, clamp).value;
    QuotientIsPlace(p.u, r.width, NearestOn(x, r.left, r.width) - r.left);
    QuotientIsPlace(p.v, r.height, NearestOn(y, r.top, r.height) - r.top);
    AxisLands(p.u, x, r.left, r.width, t.left, t.width);
    AxisLands(p.v, y, r.top, r.height, t.top, t.height);
  }

  lemma PictureIsPositive(x: real, y: real, r: Rect, clamp: bool)
    ensures Normalize(x, y, r, clamp).Some? ==> r.width > 0.0 && r.height > 0.0
  {
  }

  lemma ExactIsAlong(u: real, x: real, start: real, length: real, target: I32, extent: U32)
    requires length > 0.0 && 0.0 <= u <= 1.0 && u == (NearestOn(x, start, length) - start) / length
    ensures ExactPlace(x, start, length, target, extent) == target as real + Along(u, Span(extent))
  {
    hide NearestOn;
  }

  lemma AxisLands(u: real, x: real, start: real, length: real, target: I32, extent: U32)
    requires length > 0.0 && 0.0 <= u <= 1.0 && u == (NearestOn(x, start, length) - start) / length
    requires OnPlane(target, extent)
    ensures target <= Place(target, extent, u) <= target + Span(extent)
    ensures Near(Place(target, extent, u), ExactPlace(x, start, length, target, extent))
  {
    hide Place, Near, NearestOn, ExactPlace, Along;
    ExactIsAlong(u, x, start, length, target, extent);
    PlaceIsNear(target, extent, u);
  }

  /** Further right in the browser is never further left on the monitor, and likewise down. */
  lemma MappingIsMonotone(x: real, y: real, x': real, y': real, r: Rect, clamp: bool, t: Target)
    requires Normalize(x, y, r, clamp).Some? && Normalize(x', y', r, clamp).Some?
    ensures var a, b := Map(t, Normalize(x, y, r, clamp).value), Map(t, Normalize(x', y', r, clamp).value);
      (x <= x' ==> a.x <= b.x) && (y <= y' ==> a.y <= b.y)
  {
    var p, q := Normalize(x, y, r, clamp).value, Normalize(x', y', r, clamp).value;
    if x <= x' {
      Quotients(x - r.left, x' - r.left, r.width);
      PlaceGrows(t.left, t.width, p.u, q.u);
    }
    if y <= y' {
      Quotients(y - r.top, y' - r.top, r.height);
      PlaceGrows(t.top, t.height, p.v, q.v);
    }
  }

  lemma Quotients(a: real, b: real, c: real)
    requires a <= b && c > 0.0
    ensures a / c <= b / c
  {
    QuotientTimes(a, c);
    QuotientTimes(b, c);
    Ordered(a / c, b / c, c);
  }

  /** The corners of the picture are the corners of the monitor. */
  lemma CornersMeet(r: Rect, clamp: bool, t: Target)
    requires r.width > 0.0 && r.height > 0.0 && OnPlane(t.left, t.width) && OnPlane(t.top, t.height)
    ensures var first := Normalize(r.left, r.top, r, clamp);
      first.Some? && Map(t, first.value) == Pixel(t.left, t.top)
    ensures var last := Normalize(r.left + r.width, r.top + r.height, r, clamp);
      last.Some? && Map(t, last.value) == Pixel(t.left + Span(t.width), t.top + Span(t.height))
  {
    hide Place;
    EndsMeet(t.left, t.width);
    EndsMeet(t.top, t.height);
    assert 0.0 / r.width == 0.0 && 0.0 / r.height == 0.0 && r.width / r.width == 1.0 && r.height / r.height == 1.0;
  }

  // ----- desktop coordinates -----

  const FULL := 65535

  function ClampTo(n: int, high: nat): (r: nat)
    ensures r <= high
  {
    if n < 0 then 0 else if n > high then high else n
  }

  /** One axis of `virtual_desktop_coordinates`: the desktop starts at `start` and is `extent` pixels long. */
  function DesktopCoordinate(pixel: int, start: int, extent: int): nat {
    var last := if extent > 1 then extent - 1 else 0;
    ClampTo(pixel - start, last) * FULL / (if last > 1 then last else 1)
  }

  lemma ScaledGrows(a: nat, b: nat, d: nat)
    requires a <= b && d > 0
    ensures a * FULL / d <= b * FULL / d
  {
    DivideGrows(a * FULL, b * FULL, d);
  }

  lemma DivideGrows(a: nat, b: nat, d: nat)
    requires a <= b && d > 0
    ensures a / d <= b / d
  {
    var p, q := a / d, b / d;
    Multiple(q + 1, p, d);
  }

  lemma Multiple(a: int, b: int, d: nat)
    ensures a <= b ==> a * d <= b * d
  {
  }

  lemma ScaledEnds(d: nat)
    requires d > 0
    ensures 0 * FULL / d == 0 && d * FULL / d == FULL
  {
  }

  /** The coordinates run from 0 to 65535 over the desktop, in order. */
  lemma CoordinatesAreOrdered(p: int, q: int, start: int, extent: int)
    requires p <= q
    ensures DesktopCoordinate(p, start, extent) <= DesktopCoordinate(q, start, extent) <= FULL
    ensures p <= start ==> DesktopCoordinate(p, start, extent) == 0
    ensures extent > 1 && q >= start + extent - 1 ==> DesktopCoordinate(q, start, extent) == FULL
  {
    var last := if extent > 1 then extent - 1 else 0;
    var d := if last > 1 then last else 1;
    ScaledGrows(ClampTo(p - start, last), ClampTo(q - start, last), d);
    ScaledGrows(ClampTo(q - start, last), d, d);
    ScaledEnds(d);
  }

  /** Between the ends they are in proportion, rounded down. */
  lemma CoordinatesAreProportional(pixel: int, start: int, extent: int)
    requires start <= pixel < start + extent && extent > 1
    ensures var c := DesktopCoordinate(pixel, start, extent);
      c * (extent - 1) <= (pixel - start) * FULL < (c + 1) * (extent - 1)
  {
    var n: nat, d: nat := (pixel - start) * FULL, extent - 1;
    assert n == n / d * d + n % d;
    assert (n / d + 1) * d == n / d * d + d;
  }

  /** Steps of at least one coordinate for every pixel, as long as there are pixels to spare. */
  lemma NextPixel(k: nat, d: nat)
    requires 0 < d <= FULL
    ensures k * FULL / d < (k + 1) * FULL / d
  {
    var a: nat := k * FULL;
    assert (k + 1) * FULL == a + FULL;
    DivideGrows(a + d, a + FULL, d);
    OneMore(a, d);
  }

  lemma OneMore(a: nat, d: nat)
    requires d > 0
    ensures (a + d) / d == a / d + 1
  {
    var q := a / d;
    assert a == q * d + a % d;
    assert (q + 1) * d == q * d + d;
    QuotientIs(a + d, d, q + 1, a % d);
  }

  lemma QuotientIs(n: nat, d: nat, q: nat, r: nat)
    requires n == q * d + r && r < d
    ensures n / d == q
  {
    var p := n / d;
    Multiple(p + 1, q, d);
    Multiple(q + 1, p, d);
  }

  lemma {:induction false} PixelsApart(j: nat, k: nat, d: nat)
    requires j < k && 0 < d <= FULL
    ensures j * FULL / d < k * FULL / d
    decreases k
  {
    NextPixel(k - 1, d);
    if j < k - 1 { PixelsApart(j, k - 1, d); }
  }

  /** If every pixel had a coordinate of its own, the last one would be too far. */
  lemma {:induction false} ACollision(d: nat, k: nat) returns (at: nat)
    requires d > FULL && k <= d && k * FULL / d < k
    ensures at < k && at * FULL / d == (at + 1) * FULL / d
    decreases k
  {
    ScaledGrows(k - 1, k, d);
    if (k - 1) * FULL / d == k * FULL / d { at := k - 1; } else { at := ACollision(d, k - 1); }
  }

  predicate DistinctCoordinates(start: int, extent: int) {
    forall p, q :: start <= p < q < start + extent ==> DesktopCoordinate(p, start, extent) != DesktopCoordinate(q, start, extent)
  }

  /** Different pixels of the desktop have different coordinates exactly up to an extent of 65536. */
  lemma CoordinatesAreDistinctIff(start: int, extent: nat)
    ensures DistinctCoordinates(start, extent) <==> extent <= FULL + 1
  {
    if extent <= FULL + 1 {
      forall p, q | start <= p < q < start + extent
        ensures DesktopCoordinate(p, start, extent) != DesktopCoordinate(q, start, extent)
      {
        PixelsApart(p - start, q - start, extent - 1);
      }
    } else {
      var d := extent - 1;
      ScaledEnds(d);
      var at := ACollision(d, d);
      assert DesktopCoordinate(start + at, start, extent) == DesktopCoordinate(start + at + 1, start, extent);
    }
  }
}
