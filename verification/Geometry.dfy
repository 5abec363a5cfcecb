/** Positions, axis-aligned boxes and the distances the spatial indexes are generic in. */
module Geometry {

  /** Drivers, requests, trips and riders are named by strings that are only ever compared. */
  datatype Id = Id(name: string)

  datatype Pos = Pos(lat: real, lng: real)

  datatype Box = Box(minLat: real, maxLat: real, minLng: real, maxLng: real)

  /** A distance in metres from the first position to the second. */
  type Metric = (Pos, Pos) -> real

  /** The closed containment test of both engines. */
  predicate InBox(b: Box, p: Pos) {
    b.minLat <= p.lat <= b.maxLat && b.minLng <= p.lng <= b.maxLng
  }

  function Min(x: real, y: real): real { if x <= y then x else y }

  function Max(x: real, y: real): real { if x >= y then x else y }

  /** The point of a box that the engines measure the distance of the box by. */
  function Clamp(p: Pos, b: Box): Pos {
    Pos(Max(b.minLat, Min(p.lat, b.maxLat)), Max(b.minLng, Min(p.lng, b.maxLng)))
  }

  function BoxDistance(metric: Metric, q: Pos, b: Box): real {
    metric(q, Clamp(q, b))
  }

  /** The one fact branch and bound needs of a metric: no point of a box is nearer than the box. */
  ghost predicate BoundsBelow(metric: Metric) {
    forall q: Pos, p: Pos, b: Box :: InBox(b, p) ==> BoxDistance(metric, q, b) <= metric(q, p)
  }

  /** Every point of the first box lies in the second. */
  ghost predicate Inside(b: Box, region: Box) {
    forall p :: InBox(b, p) ==> InBox(region, p)
  }

  /** What one search needs of it: from this position, no point of a box inside the region is nearer than the
      box by more than the slack. */
  ghost predicate BoundsWithin(metric: Metric, from: Pos, region: Box, slack: real) {
    forall p: Pos, b: Box :: InBox(b, p) && Inside(b, region) ==>
      BoxDistance(metric, from, b) <= metric(from, p) + slack
  }

  lemma BoundsBelowWithin(metric: Metric, from: Pos, region: Box)
    requires BoundsBelow(metric)
    ensures BoundsWithin(metric, from, region, 0.0)
  {
  }

  datatype Slot = NW | NE | SW | SE

  function MidLat(b: Box): real { (b.minLat + b.maxLat) / 2.0 }

  function MidLng(b: Box): real { (b.minLng + b.maxLng) / 2.0 }

  function Quadrant(b: Box, s: Slot): Box {
    match s
    case NW => Box(MidLat(b), b.maxLat, b.minLng, MidLng(b))
    case NE => Box(MidLat(b), b.maxLat, MidLng(b), b.maxLng)
    case SW => Box(b.minLat, MidLat(b), b.minLng, MidLng(b))
    case SE => Box(b.minLat, MidLat(b), MidLng(b), b.maxLng)
  }

  /** The quadrant a new point is sent to; a point on a split line goes north or east. */
  function SlotOf(b: Box, p: Pos): (s: Slot)
    ensures InBox(b, p) ==> InBox(Quadrant(b, s), p)
  {
    if p.lat >= MidLat(b) then
      if p.lng < MidLng(b) then NW else NE
    else
      if p.lng < MidLng(b) then SW else SE
  }

  /** Quadrants lie inside the box they divide, so a position outside a box is outside all of them. */
  lemma QuadrantInside(b: Box, s: Slot, p: Pos)
    requires InBox(Quadrant(b, s), p)
    ensures InBox(b, p)
  {
    match s
    case NW =>
    case NE =>
    case SW =>
    case SE =>
  }

  function Abs(x: real): real { if x < 0.0 then -x else x }

  function Manhattan(): Metric {
    (p: Pos, q: Pos) => Abs(p.lat - q.lat) + Abs(p.lng - q.lng)
  }

  function SquaredEuclid(): Metric {
    (p: Pos, q: Pos) => (p.lat - q.lat) * (p.lat - q.lat) + (p.lng - q.lng) * (p.lng - q.lng)
  }

  lemma ManhattanBoundsBelow()
    ensures BoundsBelow(Manhattan())
    ensures forall from, region :: BoundsWithin(Manhattan(), from, region, 0.0)
  {
    forall q: Pos, p: Pos, b: Box | InBox(b, p)
      ensures BoxDistance(Manhattan(), q, b) <= Manhattan()(q, p)
    {
      var c := Clamp(q, b);
      assert Abs(q.lat - c.lat) <= Abs(q.lat - p.lat);
      assert Abs(q.lng - c.lng) <= Abs(q.lng - p.lng);
    }
    forall from, region ensures BoundsWithin(Manhattan(), from, region, 0.0) {
      BoundsBelowWithin(Manhattan(), from, region);
    }
  }

  lemma SquareMonotone(x: real, y: real)
    requires Abs(x) <= Abs(y)
    ensures x * x <= y * y
  {
    var a, b := Abs(x), Abs(y);
    assert a * a <= a * b <= b * b;
    assert x * x == a * a && y * y == b * b;
  }

  lemma SquaredEuclidBoundsBelow()
    ensures BoundsBelow(SquaredEuclid())
    ensures forall from, region :: BoundsWithin(SquaredEuclid(), from, region, 0.0)
  {
    forall q: Pos, p: Pos, b: Box | InBox(b, p)
      ensures BoxDistance(SquaredEuclid(), q, b) <= SquaredEuclid()(q, p)
    {
      var c := Clamp(q, b);
      SquareMonotone(q.lat - c.lat, q.lat - p.lat);
      SquareMonotone(q.lng - c.lng, q.lng - p.lng);
    }
    forall from, region ensures BoundsWithin(SquaredEuclid(), from, region, 0.0) {
      BoundsBelowWithin(SquaredEuclid(), from, region);
    }
  }

  /** Degrees of longitude between two meridians, the short way round the globe. */
  function Around(a: real, b: real): real {
    var d := if a <= b then b - a else a - b;
    if d <= 180.0 then d else 360.0 - d
  }

  function AroundTheGlobe(): Metric {
    (p: Pos, q: Pos) => Around(p.lng, q.lng)
  }

  predicate OnMeridian(lng: real) { -180.0 <= lng <= 180.0 }

  /** The edge of a box that a longitude outside it is clamped to, and the other one. */
  function NearEdge(b: Box, lng: real): real { if lng < b.minLng then b.minLng else b.maxLng }

  function FarEdge(b: Box, lng: real): real { if lng < b.minLng then b.maxLng else b.minLng }

  /** The clamp measures a box correctly for a distance that wraps around the globe if and only if the query's
      meridian crosses the box, or the edge it is clamped to is not further than the opposite one. */
  lemma WrapAroundBoundIff(q: Pos, b: Box)
    requires OnMeridian(q.lng) && OnMeridian(b.minLng) && OnMeridian(b.maxLng) && b.minLat <= b.maxLat
    requires b.minLng <= b.maxLng
    ensures
      (forall p: Pos :: InBox(b, p) ==> BoxDistance(AroundTheGlobe(), q, b) <= AroundTheGlobe()(q, p))
      <==> (b.minLng <= q.lng <= b.maxLng || Around(q.lng, NearEdge(b, q.lng)) <= Around(q.lng, FarEdge(b, q.lng)))
  {
    if b.minLng <= q.lng <= b.maxLng {
      assert BoxDistance(AroundTheGlobe(), q, b) == 0.0;
    } else {
      var far := Pos(b.minLat, FarEdge(b, q.lng));
      assert BoxDistance(AroundTheGlobe(), q, b) == Around(q.lng, NearEdge(b, q.lng));
      assert InBox(b, far) && AroundTheGlobe()(q, far) == Around(q.lng, FarEdge(b, q.lng));
    }
  }

  /** So it is not a matter of course: a box just across the antimeridian is measured by its far side. */
  lemma WrapAroundBreaksBound()
    ensures !BoundsBelow(AroundTheGlobe())
  {
    var q, p, b := Pos(0.0, -180.0), Pos(0.0, 180.0), Box(0.0, 0.0, 170.0, 180.0);
    assert InBox(b, p) && Clamp(q, b) == Pos(0.0, 170.0);
    assert !(BoxDistance(AroundTheGlobe(), q, b) <= AroundTheGlobe()(q, p));
  }
}
