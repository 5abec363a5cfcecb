/** The engine's grid on the map: how far its rings really are, and what its searches find and miss. */
module HexMap {
  import opened Geometry
  import opened Candidates
  import opened HexCells
  import opened HexSearch
  import opened HexGrid

  // ---- Distances ----

  /** The engine's projection of a pointy-top grid, with `s` for the square root of three. */
  function PointyTop(s: real, radius: real, centre: Pos, mLat: real, mLng: real): Pos -> (real, real)
    requires 0.0 < radius
  {
    (p: Pos) =>
      var x, y := (p.lng - centre.lng) * mLng, (p.lat - centre.lat) * mLat;
      ((s / 3.0 * x - 1.0 / 3.0 * y) / radius, 2.0 / 3.0 * y / radius)
  }

  function CellAt(project: Pos -> (real, real), p: Pos): Cell {
    CubeRound(project(p).0, project(p).1)
  }

  /** The squared distance in metres on the map. */
  function MapSquare(p: Pos, p': Pos, mLat: real, mLng: real): real {
    var x, y := (p'.lng - p.lng) * mLng, (p'.lat - p.lat) * mLat;
    x * x + y * y
  }

  lemma NormOfMetres(s: real, radius: real, x: real, y: real)
    requires s * s == 3.0 && 0.0 < radius
    ensures
      var dq, dr := (s / 3.0 * x - 1.0 / 3.0 * y) / radius, 2.0 / 3.0 * y / radius;
      3.0 * (radius * radius) * Norm(dq, dr) == 2.0 * (x * x + y * y)
  {
    var dq, dr := (s / 3.0 * x - 1.0 / 3.0 * y) / radius, 2.0 / 3.0 * y / radius;
    var a, b := s / 3.0 * x - 1.0 / 3.0 * y, 2.0 / 3.0 * y;
    assert dq * radius == a && dr * radius == b;
    assert radius * radius * Norm(dq, dr) == Norm(a, b) by {
      ScaledNorm(dq, dr, radius);
    }
    MetresNorm(s, x, y);
  }

  lemma ScaledNorm(a: real, b: real, w: real)
    ensures w * w * Norm(a, b) == Norm(a * w, b * w)
  {
    assert (a * w) * (a * w) == w * w * (a * a) && (b * w) * (b * w) == w * w * (b * b);
    assert (-(a * w) - b * w) * (-(a * w) - b * w) == w * w * ((-a - b) * (-a - b));
  }

  lemma MetresNorm(s: real, x: real, y: real)
    requires s * s == 3.0
    ensures 3.0 * Norm(s / 3.0 * x - 1.0 / 3.0 * y, 2.0 / 3.0 * y) == 2.0 * (x * x + y * y)
  {
    var u, v := s * x / 3.0, y / 3.0;
    assert s / 3.0 * x == u && 1.0 / 3.0 * y == v && 2.0 / 3.0 * y == 2.0 * v;
    assert Norm(u - v, 2.0 * v) == (u - v) * (u - v) + 4.0 * (v * v) + (u + v) * (u + v) ==
      2.0 * (u * u) + 6.0 * (v * v);
    assert u * u == s * s * (x * x) / 9.0 == x * x / 3.0;
    assert v * v == y * y / 9.0;
  }

  /** The projection keeps distances: three times the squared radius of a hexagon, times `Norm` of the difference in
      coordinates, is twice the squared distance in metres, in every direction. */
  lemma ProjectionKeepsDistance(s: real, radius: real, centre: Pos, mLat: real, mLng: real, p: Pos, p': Pos)
    requires s * s == 3.0 && 0.0 < radius
    ensures
      var (q, r) := PointyTop(s, radius, centre, mLat, mLng)(p);
      var (q', r') := PointyTop(s, radius, centre, mLat, mLng)(p');
      3.0 * (radius * radius) * Norm(q' - q, r' - r) == 2.0 * MapSquare(p, p', mLat, mLng)
  {
    var x, y := (p.lng - centre.lng) * mLng, (p.lat - centre.lat) * mLat;
    var x', y' := (p'.lng - centre.lng) * mLng, (p'.lat - centre.lat) * mLat;
    assert x' - x == (p'.lng - p.lng) * mLng && y' - y == (p'.lat - p.lat) * mLat;
    NormOfMetres(s, radius, x' - x, y' - y);
    Differences(s, radius, x, y, x', y');
  }

  lemma Differences(s: real, radius: real, x: real, y: real, x': real, y': real)
    requires 0.0 < radius
    ensures
      (s / 3.0 * x' - 1.0 / 3.0 * y') / radius - (s / 3.0 * x - 1.0 / 3.0 * y) / radius ==
        (s / 3.0 * (x' - x) - 1.0 / 3.0 * (y' - y)) / radius
    ensures 2.0 / 3.0 * y' / radius - 2.0 / 3.0 * y / radius == 2.0 / 3.0 * (y' - y) / radius
  {
    Quotients(s / 3.0 * x' - 1.0 / 3.0 * y', s / 3.0 * x - 1.0 / 3.0 * y, radius);
    Quotients(2.0 / 3.0 * y', 2.0 / 3.0 * y, radius);
    assert s / 3.0 * x' - 1.0 / 3.0 * y' - (s / 3.0 * x - 1.0 / 3.0 * y) == s / 3.0 * (x' - x) - 1.0 / 3.0 * (y' - y);
  }

  lemma Quotients(a: real, b: real, w: real)
    requires 0.0 < w
    ensures a / w - b / w == (a - b) / w
  {
  }

  /** A projection onto the grid that keeps distances, given as their squares. */
  ghost predicate KeepsDistance(project: Pos -> (real, real), radius: real, square: (Pos, Pos) -> real) {
    forall p, p' :: InScale(project, radius, square, p, p')
  }

  predicate InScale(project: Pos -> (real, real), radius: real, square: (Pos, Pos) -> real, p: Pos, p': Pos) {
    3.0 * (radius * radius) * Norm(project(p').0 - project(p).0, project(p').1 - project(p).1) == 2.0 * square(p, p')
  }

  /** The engine's does. */
  lemma PointyTopKeepsDistance(s: real, radius: real, centre: Pos, mLat: real, mLng: real)
    requires s * s == 3.0 && 0.0 < radius
    ensures KeepsDistance(PointyTop(s, radius, centre, mLat, mLng), radius, (p, p') => MapSquare(p, p', mLat, mLng))
  {
    var project, square := PointyTop(s, radius, centre, mLat, mLng), (p, p') => MapSquare(p, p', mLat, mLng);
    forall p, p' ensures InScale(project, radius, square, p, p') {
      ProjectionKeepsDistance(s, radius, centre, mLat, mLng, p, p');
    }
  }

  /** A position lies in the hexagon of a cell. */
  predicate LiesIn(project: Pos -> (real, real), p: Pos, c: Cell) {
    InHexagon(c, project(p).0, project(p).1)
  }

  lemma OwnCell(project: Pos -> (real, real), p: Pos)
    ensures LiesIn(project, p, CellAt(project, p))
  {
    CubeRoundInHexagon(project(p).0, project(p).1);
  }

  /** How far, in metres, ring n is away at least, from ring 2 on. */
  function RingReach(radius: real, n: int): real { 1.5 * radius * (n as real - 4.0 / 3.0) }

  /** From ring 2 on, a driver on ring n is at least `1.5 * (n - 4 / 3)` hexagon radii away on the map. */
  lemma RingOnMap(
      project: Pos -> (real, real), radius: real, square: (Pos, Pos) -> real, from: Pos, p: Pos, c: Cell, x: Cell,
        n: int)
    requires KeepsDistance(project, radius, square) && LiesIn(project, from, c) && LiesIn(project, p, x)
    requires HexDistance(c, x) == n && 2 <= n
    ensures RingReach(radius, n) * RingReach(radius, n) <= square(from, p)
  {
    assert InScale(project, radius, square, from, p);
    RingGap(c, x, project(from).0, project(from).1, project(p).0, project(p).1);
    InMetres(radius, n as real - 4.0 / 3.0,
             Norm(project(p).0 - project(from).0, project(p).1 - project(from).1), square(from, p));
  }

  lemma InMetres(radius: real, gap: real, norm: real, square: real)
    requires 1.5 * (gap * gap) <= norm && 3.0 * (radius * radius) * norm == 2.0 * square
    ensures (1.5 * radius * gap) * (1.5 * radius * gap) <= square
  {
    assert radius * radius >= 0.0;
    assert radius * radius * (norm - 1.5 * (gap * gap)) >= 0.0;
    assert (1.5 * radius * gap) * (1.5 * radius * gap) == 2.25 * (radius * radius * (gap * gap));
  }

  /** For a search radius of at most four cell widths the rings of a search reach every driver in radius on the map. */
  lemma SmallRadiusReached(
      project: Pos -> (real, real), s: real, radius: real, width: real, square: (Pos, Pos) -> real, from: Pos, p: Pos,
      c: Cell, x: Cell, n: int, searchRadius: real)
    requires KeepsDistance(project, radius, square) && LiesIn(project, from, c) && LiesIn(project, p, x)
    requires HexDistance(c, x) == n
    requires 0.0 < s && s * s == 3.0 && 0.0 < radius && width == s * radius && 0.0 < width
    requires 0.0 < searchRadius <= 4.0 * width && square(from, p) <= searchRadius * searchRadius
    ensures n <= MaxRings(searchRadius, width)
  {
    MaxRingsBounds(searchRadius, width);
    if MaxRings(searchRadius, width) < n {
      BeyondRadius(s, radius, width, searchRadius, MaxRings(searchRadius, width), n);
      OutOfReach(project, radius, square, from, p, c, x, n, searchRadius);
      assert false;
    }
  }

  lemma OutOfReach(
      project: Pos -> (real, real), radius: real, square: (Pos, Pos) -> real, from: Pos, p: Pos, c: Cell, x: Cell,
        n: int,
      searchRadius: real)
    requires KeepsDistance(project, radius, square) && LiesIn(project, from, c) && LiesIn(project, p, x)
    requires HexDistance(c, x) == n && 2 <= n && 0.0 < searchRadius < RingReach(radius, n)
    ensures searchRadius * searchRadius < square(from, p)
  {
    RingOnMap(project, radius, square, from, p, c, x, n);
    SquareLess(searchRadius, RingReach(radius, n));
  }

  /** So do those of the engine, whose projection keeps distances. */
  lemma EngineReaches(
      s: real, radius: real, width: real, centre: Pos, mLat: real, mLng: real, from: Pos, p: Pos, searchRadius: real)
    requires 0.0 < s && s * s == 3.0 && 0.0 < radius && width == s * radius && 0.0 < width
    requires 0.0 < searchRadius <= 4.0 * width && MapSquare(from, p, mLat, mLng) <= searchRadius * searchRadius
    ensures
      var project := PointyTop(s, radius, centre, mLat, mLng);
      HexDistance(CellAt(project, from), CellAt(project, p)) <= MaxRings(searchRadius, width)
  {
    var project, square := PointyTop(s, radius, centre, mLat, mLng), (p, p') => MapSquare(p, p', mLat, mLng);
    PointyTopKeepsDistance(s, radius, centre, mLat, mLng);
    OwnCell(project, from);
    OwnCell(project, p);
    var c, x := CellAt(project, from), CellAt(project, p);
    SmallRadiusReached(project, s, radius, width, square, from, p, c, x, HexDistance(c, x), searchRadius);
  }

  lemma BeyondRadius(s: real, radius: real, width: real, searchRadius: real, last: int, n: int)
    requires 0.0 < s && s * s == 3.0 && 0.0 < radius && width == s * radius && 0.0 < searchRadius <= 4.0 * width
    requires searchRadius <= (last as real - 1.0) * width && last < n
    ensures searchRadius < RingReach(radius, n)
  {
    var m := last as real - 1.0;
    RootOfThree(s);
    ShareOfRings(s, radius, width, searchRadius, m);
    ShareOfWidths(s, radius, width, searchRadius);
    BeyondLast(radius, m, n);
    Added(searchRadius, s * searchRadius, m * radius, radius, RingReach(radius, n));
  }

  lemma Added(x: real, sx: real, y: real, radius: real, far: real)
    requires sx <= 3.0 * y && 2.0 * x - sx < 2.0 * radius && 3.0 * y + 2.0 * radius <= 2.0 * far
    ensures x < far
  {
  }

  lemma SquareLess(a: real, b: real)
    requires 0.0 < a < b
    ensures a * a < b * b
  {
    Positive(a, b - a);
    Positive(b, b - a);
  }

  lemma Positive(x: real, y: real)
    requires 0.0 < x && 0.0 < y
    ensures 0.0 < x * y
  {
  }

  lemma NotNegative(x: real, y: real)
    requires 0.0 <= x && 0.0 <= y
    ensures 0.0 <= x * y
  {
  }

  lemma RootOfThree(s: real)
    requires 0.0 < s && s * s == 3.0
    ensures 12.0 / 7.0 < s < 1.75
  {
    var low, high := 12.0 / 7.0, 1.75;
    assert low * low < 3.0 < high * high;
    if s < low {
      SquareLess(s, low);
    }
    if high < s {
      SquareLess(high, s);
    }
  }

  lemma ShareOfRings(s: real, radius: real, width: real, searchRadius: real, m: real)
    requires 0.0 < s && s * s == 3.0 && width == s * radius && searchRadius <= m * width
    ensures s * searchRadius <= 3.0 * (m * radius)
  {
    NotNegative(s, m * width - searchRadius);
    assert s * (m * width - searchRadius) == s * (m * width) - s * searchRadius;
    assert s * (m * width) == s * s * (m * radius);
  }

  lemma ShareOfWidths(s: real, radius: real, width: real, searchRadius: real)
    requires 0.0 < s < 1.75 && s * s == 3.0 && 0.0 < radius && width == s * radius && searchRadius <= 4.0 * width
    ensures 2.0 * searchRadius - s * searchRadius < 2.0 * radius
  {
    NotNegative(2.0 - s, 4.0 * width - searchRadius);
    assert (2.0 - s) * (4.0 * width - searchRadius) ==
      8.0 * width - 2.0 * searchRadius - 4.0 * (s * width) + s * searchRadius;
    assert s * width == s * s * radius == 3.0 * radius;
    Positive(1.75 - s, radius);
    assert (1.75 - s) * radius == 1.75 * radius - width;
  }

  lemma BeyondLast(radius: real, m: real, n: int)
    requires 0.0 < radius && m + 2.0 <= n as real
    ensures 3.0 * (m * radius) + 2.0 * radius <= 2.0 * RingReach(radius, n)
  {
    NotNegative(radius, n as real - 2.0 - m);
    assert radius * (n as real - 2.0 - m) == radius * (n as real) - 2.0 * radius - m * radius;
    assert RingReach(radius, n) == 1.5 * (radius * (n as real)) - 2.0 * radius;
  }

  // ---- Two drivers in a row ----

  /** The point `t` cell widths along the row through the centre of the grid. */
  function OnRow(centre: Pos, width: real, mLng: real, t: real): Pos
    requires mLng != 0.0
  {
    Pos(centre.lat, centre.lng + t * width / mLng)
  }

  lemma RowCoordinates(s: real, radius: real, centre: Pos, mLat: real, mLng: real, t: real)
    requires s * s == 3.0 && 0.0 < radius && mLng != 0.0
    ensures PointyTop(s, radius, centre, mLat, mLng)(OnRow(centre, s * radius, mLng, t)) == (t, 0.0)
  {
    var project, p := PointyTop(s, radius, centre, mLat, mLng), OnRow(centre, s * radius, mLng, t);
    var x, y := (p.lng - centre.lng) * mLng, (p.lat - centre.lat) * mLat;
    assert x == t * (s * radius) && y == 0.0;
    RowScale(s, radius, t);
    assert project(p).0 == (s / 3.0 * x - 1.0 / 3.0 * y) / radius == t;
    assert project(p).1 == 2.0 / 3.0 * y / radius == 0.0;
  }

  lemma RowScale(s: real, radius: real, t: real)
    requires s * s == 3.0 && 0.0 < radius
    ensures (s / 3.0 * (t * (s * radius)) - 1.0 / 3.0 * 0.0) / radius == t
  {
    assert s / 3.0 * (t * (s * radius)) == s * s * (t * radius) / 3.0 == t * radius;
  }

  lemma RoundedRow(t: real)
    ensures -0.5 < t < 0.5 ==> CubeRound(t, 0.0) == Cell(0, 0)
    ensures 0.5 < t < 1.5 ==> CubeRound(t, 0.0) == Cell(1, 0)
  {
  }

  lemma RowCell(s: real, radius: real, centre: Pos, mLat: real, mLng: real, t: real)
    requires s * s == 3.0 && 0.0 < radius && mLng != 0.0
    ensures -0.5 < t < 0.5 ==>
              CellAt(PointyTop(s, radius, centre, mLat, mLng), OnRow(centre, s * radius, mLng, t)) == Cell(0, 0)
    ensures 0.5 < t < 1.5 ==>
              CellAt(PointyTop(s, radius, centre, mLat, mLng), OnRow(centre, s * radius, mLng, t)) == Cell(1, 0)
  {
    RowCoordinates(s, radius, centre, mLat, mLng, t);
    RoundedRow(t);
  }

  /** What the search makes of one driver in the query's cell and one next door, `da` and `db` away. */
  predicate FirstOfTwo(r: seq<Candidate>, width: real, da: real, db: real, a: Id, b: Id) {
    && |r| == 1
    && (da <= 0.5 * width || da < db ==> r[0].id == a)
    && (0.5 * width < da && db < da ==> r[0].id == b)
    && (r[0].id == a || r[0].id == b)
  }

  lemma TwoInRow(
      index: map<Id, Pos>, cells: map<Id, int>, width: real, q: Query, a: Id, b: Id, maxRings: int, r: seq<Candidate>)
    requires a != b && index.Keys == cells.Keys == {a, b} && 0.0 < width && q.k == 1 && 1 <= maxRings && |r| <= 1
    requires cells[a] == PackCellId(Cell(0, 0)) && cells[b] == PackCellId(Cell(1, 0))
    requires InRadius(index, q, a) && InRadius(index, q, b)
    requires
      var stop := StopRing(index, cells, Cell(0, 0), width, q, maxRings, 0);
      BestOf(WithinRings(cells, Cell(0, 0), stop), index, q, r)
    ensures FirstOfTwo(r, width, q.metric(q.from, index[a]), q.metric(q.from, index[b]), a, b)
    ensures q.metric(q.from, index[b]) < q.metric(q.from, index[a]) <= 0.5 * width ==> !IsKnn(index, q, r)
  {
    var da, db := q.metric(q.from, index[a]), q.metric(q.from, index[b]);
    RowStop(index, cells, width, q, a, b, maxRings);
    RowRings(cells, a, b);
    if da <= 0.5 * width {
      assert a in Ids(r);
      assert r[0] in r && r[0].id in Ids(r);
    } else {
      BestOfTwo(index, q, a, b, r);
    }
  }

  lemma BestOfTwo(index: map<Id, Pos>, q: Query, a: Id, b: Id, r: seq<Candidate>)
    requires a != b && index.Keys == {a, b} && q.k == 1 && |r| <= 1 && InRadius(index, q, a) && InRadius(index, q, b)
    requires BestOf({a, b}, index, q, r)
    ensures |r| == 1 && (r[0].id == a || r[0].id == b)
    ensures q.metric(q.from, index[a]) < q.metric(q.from, index[b]) ==> r[0].id == a
    ensures q.metric(q.from, index[b]) < q.metric(q.from, index[a]) ==> r[0].id == b
  {
    assert a in Ids(r) || Beaten(r, q.k, q.metric(q.from, index[a]));
    assert r[0] in r && r[0].id in Ids(r);
  }

  /** Ring 1 is visited exactly if the driver in the query's cell is more than half a width away. */
  lemma RowStop(index: map<Id, Pos>, cells: map<Id, int>, width: real, q: Query, a: Id, b: Id, maxRings: int)
    requires a != b && index.Keys == cells.Keys == {a, b} && 0.0 < width && q.k == 1 && 1 <= maxRings
    requires cells[a] == PackCellId(Cell(0, 0)) && cells[b] == PackCellId(Cell(1, 0)) && InRadius(index, q, a)
    ensures
      var stop := StopRing(index, cells, Cell(0, 0), width, q, maxRings, 0);
      if q.metric(q.from, index[a]) <= 0.5 * width then stop == 1 else 2 <= stop
  {
    var c := Cell(0, 0);
    RowRings(cells, a, b);
    CutsOffMeans(index, cells, c, width, q, 0);
    CutsOffMeans(index, cells, c, width, q, 1);
    assert Near(index, WithinRings(cells, c, 1), q, (1 as real - 0.5) * width) ==
      if q.metric(q.from, index[a]) <= 0.5 * width then {a} else {};
    StopRingIsFirst(index, cells, c, width, q, maxRings, 0);
  }

  lemma RowRings(cells: map<Id, int>, a: Id, b: Id)
    requires a != b && cells.Keys == {a, b} && cells[a] == PackCellId(Cell(0, 0)) && cells[b] == PackCellId(Cell(1, 0))
    ensures WithinRings(cells, Cell(0, 0), 1) == {a}
    ensures forall n: nat | 2 <= n :: WithinRings(cells, Cell(0, 0), n) == {a, b}
  {
    forall id ensures id in WithinRings(cells, Cell(0, 0), 1) <==> id in {a} {
      OnlyCentre(cells, id);
    }
    assert HexDistance(Cell(0, 0), Cell(0, 0)) == 0 && HexDistance(Cell(0, 0), Cell(1, 0)) == 1;
  }

  /** The distance of two points of the row is the distance along it. */
  predicate RightOnRow(metric: Metric, centre: Pos, width: real, mLng: real, t: real, u: real)
    requires mLng != 0.0
  {
    metric(OnRow(centre, width, mLng, t), OnRow(centre, width, mLng, u)) == AbsReal(t - u) * width
  }

  ghost predicate RightAlongRow(metric: Metric, centre: Pos, width: real, mLng: real)
    requires mLng != 0.0
  {
    forall t: real, u: real :: RightOnRow(metric, centre, width, mLng, t, u)
  }

  /** The engine asked for the nearest driver, with one driver in the query's cell and one in the next: whatever the
      projection and the distance, it looks next door exactly if the driver in the cell is more than half a cell width
      away, and then answers with the nearer. */
  method SearchTwo(
    project: Pos -> (real, real), width: real, q: Query, a: Id, pa: Pos, b: Id, pb: Pos, ghost da: real, ghost db: real)
    returns (r: seq<Candidate>)
    requires q.metric(q.from, pa) == da <= q.radius && q.metric(q.from, pb) == db <= q.radius
    requires a != b && 0.0 < width && 0.0 < q.radius && q.k == 1 && MaxRings(q.radius, width) < TWO31 - 1
    requires CellAt(project, q.from) == Cell(0, 0) && CellAt(project, pa) == Cell(0, 0)
    requires CellAt(project, pb) == Cell(1, 0)
    ensures FirstOfTwo(r, width, da, db, a, b)
    ensures db < da <= 0.5 * width ==> !IsKnn(map[a := pa, b := pb], q, r)
  {
    var grid := new HexGrid(project, width);
    var _ := grid.Insert(a, pa.lat, pa.lng);
    var _ := grid.Insert(b, pb.lat, pb.lng);
    r := grid.KNearestNeighbours(q);
    assert grid.Contents() == map[a := pa, b := pb];
    TwoCells(grid, a, pa, b, pb);
    UnpackInvertsPack(Cell(0, 0));
    MaxRingsBounds(q.radius, width);
    TwoInRow(map[a := pa, b := pb], grid.CellIds(), width, q, a, b, MaxRings(q.radius, width), r);
  }

  lemma TwoCells(grid: HexGrid, a: Id, pa: Pos, b: Id, pb: Pos)
    requires grid.Valid() && a != b && grid.Contents() == map[a := pa, b := pb]
    ensures grid.CellIds() == map[a := PackCellId(CellAt(grid.project, pa)), b := PackCellId(CellAt(grid.project, pb))]
  {
    assert a in grid.Contents() && b in grid.Contents();
    assert a in grid.driverIndex && b in grid.driverIndex;
    assert grid.Filed(a) && grid.Filed(b);
  }

  /** Everything the search has to know of three points of the row. */
  lemma RowQuery(
      s: real, radius: real, width: real, centre: Pos, mLat: real, mLng: real, metric: Metric, t: real, u: real,
        v: real)
    requires s * s == 3.0 && 0.0 < radius && width == s * radius && mLng != 0.0
    requires -0.5 < t < 0.5 && -0.5 < u < 0.5 && 0.5 < v < 1.5 && RightAlongRow(metric, centre, width, mLng)
    ensures
      var project := PointyTop(s, radius, centre, mLat, mLng);
      var from, pa, pb := OnRow(centre, width, mLng, t), OnRow(centre, width, mLng, u), OnRow(centre, width, mLng, v);
      && CellAt(project, from) == Cell(0, 0) && CellAt(project, pa) == Cell(0, 0) && CellAt(project, pb) == Cell(1, 0)
      && metric(from, pa) == AbsReal(t - u) * width && metric(from, pb) == AbsReal(t - v) * width
  {
    RowCell(s, radius, centre, mLat, mLng, t);
    RowCell(s, radius, centre, mLat, mLng, u);
    RowCell(s, radius, centre, mLat, mLng, v);
    assert RightOnRow(metric, centre, width, mLng, t, u) && RightOnRow(metric, centre, width, mLng, t, v);
  }

  lemma OnlyCentre(cells: map<Id, int>, id: Id)
    ensures id in WithinRings(cells, Cell(0, 0), 1) <==> id in cells && cells[id] == PackCellId(Cell(0, 0))
  {
    forall x ensures HexDistance(Cell(0, 0), x) == 0 <==> x == Cell(0, 0) {
      HexDistanceIsMetric(Cell(0, 0), x, x);
    }
    assert HexDistance(Cell(0, 0), Cell(0, 0)) == 0;
  }

  // ---- Two ways to miss a driver ----

  /** The ring bound in use is no bound: from a point near the edge of its cell the engine answers with the driver in
      that cell although there is one less than a quarter as far away next door. */
  method RingCutoffMisses(
    s: real, radius: real, width: real, centre: Pos, mLat: real, mLng: real, q: Query, a: Id, pa: Pos, b: Id, pb: Pos)
    returns (r: seq<Candidate>)
    requires s * s == 3.0 && 0.0 < radius && width == s * radius && 0.0 < width <= q.radius && mLng != 0.0 && a != b
    requires RightAlongRow(q.metric, centre, width, mLng) && MaxRings(q.radius, width) < TWO31 - 1 && q.k == 1
    requires q.from == OnRow(centre, width, mLng, 0.45)
    requires pa == OnRow(centre, width, mLng, 0.0) && pb == OnRow(centre, width, mLng, 0.55)
    ensures |r| == 1 && r[0].id == a && !IsKnn(map[a := pa, b := pb], q, r)
  {
    RowQuery(s, radius, width, centre, mLat, mLng, q.metric, 0.45, 0.0, 0.55);
    r := SearchTwo(PointyTop(s, radius, centre, mLat, mLng), width, q, a, pa, b, pb, 0.45 * width, 0.1 * width);
  }

  /** But a driver in the cell that is 0.85 of its width away does not hide one 0.15 of it away next door. */
  method FarInCellFindsNeighbour(
    s: real, radius: real, width: real, centre: Pos, mLat: real, mLng: real, q: Query, a: Id, pa: Pos, b: Id, pb: Pos)
    returns (r: seq<Candidate>)
    requires s * s == 3.0 && 0.0 < radius && width == s * radius && 0.0 < width <= q.radius && mLng != 0.0 && a != b
    requires RightAlongRow(q.metric, centre, width, mLng) && MaxRings(q.radius, width) < TWO31 - 1 && q.k == 1
    requires q.from == OnRow(centre, width, mLng, 0.4)
    requires pa == OnRow(centre, width, mLng, -0.45) && pb == OnRow(centre, width, mLng, 0.55)
    ensures |r| == 1 && r[0].id == b
  {
    RowQuery(s, radius, width, centre, mLat, mLng, q.metric, 0.4, -0.45, 0.55);
    r := SearchTwo(PointyTop(s, radius, centre, mLat, mLng), width, q, a, pa, b, pb, 0.85 * width, 0.15 * width);
  }

  /** The point `y` metres up the column through the centre of the grid. */
  function OnColumn(centre: Pos, mLat: real, y: real): Pos
    requires mLat != 0.0
  {
    Pos(centre.lat + y / mLat, centre.lng)
  }

  lemma ColumnCell(s: real, radius: real, centre: Pos, mLat: real, mLng: real, rows: int)
    requires 0.0 < radius && mLat != 0.0
    ensures CellAt(PointyTop(s, radius, centre, mLat, mLng), OnColumn(centre, mLat, 3.0 * (rows as real) * radius)) ==
              Cell(-rows, 2 * rows)
  {
    ColumnCoordinates(s, radius, centre, mLat, mLng, rows as real);
    WholeCell(PointyTop(s, radius, centre, mLat, mLng), OnColumn(centre, mLat, 3.0 * (rows as real) * radius), -rows,
              2 * rows);
  }

  lemma ColumnCoordinates(s: real, radius: real, centre: Pos, mLat: real, mLng: real, rows: real)
    requires 0.0 < radius && mLat != 0.0
    ensures PointyTop(s, radius, centre, mLat, mLng)(OnColumn(centre, mLat, 3.0 * rows * radius)) == (-rows, 2.0 * rows)
  {
    var project, y := PointyTop(s, radius, centre, mLat, mLng), 3.0 * rows * radius;
    var p := OnColumn(centre, mLat, y);
    Quotient(y, mLat);
    assert p.lat - centre.lat == y / mLat && p.lng - centre.lng == 0.0;
    assert (p.lat - centre.lat) * mLat == y && (p.lng - centre.lng) * mLng == 0.0 * mLng;
    assert project(p).0 == (s / 3.0 * (0.0 * mLng) - 1.0 / 3.0 * y) / radius;
    assert project(p).1 == 2.0 / 3.0 * y / radius;
    ColumnScale(s, radius, mLng, rows);
  }

  lemma WholeCell(project: Pos -> (real, real), p: Pos, q: int, r: int)
    requires project(p) == (q as real, r as real)
    ensures CellAt(project, p) == Cell(q, r)
  {
    WholeRounds(q, r);
  }

  lemma Quotient(a: real, w: real)
    requires w != 0.0
    ensures a / w * w == a && a * w / w == a
  {
  }

  lemma ColumnScale(s: real, radius: real, mLng: real, rows: real)
    requires 0.0 < radius
    ensures (s / 3.0 * (0.0 * mLng) - 1.0 / 3.0 * (3.0 * rows * radius)) / radius == -rows
    ensures 2.0 / 3.0 * (3.0 * rows * radius) / radius == 2.0 * rows
  {
    assert s / 3.0 * (0.0 * mLng) - 1.0 / 3.0 * (3.0 * rows * radius) == -rows * radius;
    assert 2.0 / 3.0 * (3.0 * rows * radius) == 2.0 * rows * radius;
    Quotient(-rows, radius);
    Quotient(2.0 * rows, radius);
  }

  lemma WholeRounds(q: int, r: int)
    ensures CubeRound(q as real, r as real) == Cell(q, r)
  {
    assert Round(q as real) == q && Round(r as real) == r && Round(-(q as real) - r as real) == -q - r;
  }

  /** The rings of a search need not reach its radius: asked for drivers within 14 cell widths, for any k, the engine
      does not find the only driver there is, 24 hexagon radii (13.9 cell widths) up the column of its cell. */
  method RadiusNotReached(
    s: real, radius: real, width: real, centre: Pos, mLat: real, mLng: real, metric: Metric, k: int, a: Id)
    returns (r: seq<Candidate>)
    requires 0.0 < s && s * s == 3.0 && 0.0 < radius && width == s * radius && mLat != 0.0 && 0 < k
    requires metric(centre, OnColumn(centre, mLat, 24.0 * radius)) == 24.0 * radius
    ensures
      var q := Query(metric, centre, k, 14.0 * width);
      r == [] && !IsKnn(map[a := OnColumn(centre, mLat, 24.0 * radius)], q, r)
  {
    Positive(s, radius);
    FourteenWidths(s, radius, width);
    ColumnCells(s, radius, centre, mLat, mLng);
    r := SearchOne(PointyTop(s, radius, centre, mLat, mLng), width, Query(metric, centre, k, 14.0 * width), a,
                   OnColumn(centre, mLat, 24.0 * radius));
  }

  lemma ColumnCells(s: real, radius: real, centre: Pos, mLat: real, mLng: real)
    requires 0.0 < radius && mLat != 0.0
    ensures CellAt(PointyTop(s, radius, centre, mLat, mLng), centre) == Cell(0, 0)
    ensures CellAt(PointyTop(s, radius, centre, mLat, mLng), OnColumn(centre, mLat, 24.0 * radius)) == Cell(-8, 16)
  {
    ColumnCell(s, radius, centre, mLat, mLng, 0);
    ColumnCell(s, radius, centre, mLat, mLng, 8);
    assert OnColumn(centre, mLat, 3.0 * (0 as real) * radius) == centre;
  }

  method SearchOne(project: Pos -> (real, real), width: real, q: Query, a: Id, p: Pos) returns (r: seq<Candidate>)
    requires 0.0 < width && 0 < q.k && 0.0 < q.radius && MaxRings(q.radius, width) == 15
    requires CellAt(project, q.from) == Cell(0, 0) && CellAt(project, p) == Cell(-8, 16)
    requires q.metric(q.from, p) <= q.radius
    ensures r == [] && !IsKnn(map[a := p], q, r)
  {
    var grid := new HexGrid(project, width);
    var _ := grid.Insert(a, p.lat, p.lng);
    r := grid.KNearestNeighbours(q);
    assert grid.Contents() == map[a := p];
    OneCell(grid, a, p);
    UnpackInvertsPack(Cell(0, 0));
    TooFarOut(map[a := p], grid.CellIds(), width, q, a, r);
  }

  lemma OneCell(grid: HexGrid, a: Id, p: Pos)
    requires grid.Valid() && grid.Contents() == map[a := p]
    ensures grid.CellIds() == map[a := PackCellId(CellAt(grid.project, p))]
  {
    assert a in grid.Contents();
    assert a in grid.driverIndex;
    assert grid.Filed(a);
  }

  lemma FourteenWidths(s: real, radius: real, width: real)
    requires 0.0 < s && s * s == 3.0 && 0.0 < radius && width == s * radius && 0.0 < width
    ensures MaxRings(14.0 * width, width) == 15 && 24.0 * radius <= 14.0 * width
  {
    Quotient(14.0, width);
    RootOfThree(s);
    NotNegative(14.0 * s - 24.0, radius);
    assert (14.0 * s - 24.0) * radius == 14.0 * width - 24.0 * radius;
  }

  lemma TooFarOut(index: map<Id, Pos>, cells: map<Id, int>, width: real, q: Query, a: Id, r: seq<Candidate>)
    requires index.Keys == cells.Keys == {a} && cells[a] == PackCellId(Cell(-8, 16)) && 0 < q.k && InRadius(index, q, a)
    requires BestOf(WithinRings(cells, Cell(0, 0), StopRing(index, cells, Cell(0, 0), width, q, 15, 0)), index, q, r)
    ensures r == [] && !IsKnn(index, q, r)
  {
    var stop := StopRing(index, cells, Cell(0, 0), width, q, 15, 0);
    StopRingIsFirst(index, cells, Cell(0, 0), width, q, 15, 0);
    assert HexDistance(Cell(0, 0), Cell(-8, 16)) == 16;
    forall id | id in WithinRings(cells, Cell(0, 0), stop) ensures false {
      var x :| PackCellId(x) == cells[id] && HexDistance(Cell(0, 0), x) < stop;
      PackedBallDistinct(Cell(0, 0), 16, x, Cell(-8, 16));
    }
    assert Ids(r) == {};
    IdsCardinality(r);
    assert !Beaten(r, q.k, 0.0) && a !in Ids(r);
  }
}
