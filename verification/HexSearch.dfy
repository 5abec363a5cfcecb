/** What the ring-by-ring search of the hexagonal engine finds, and exactly when that is enough. */
module HexSearch {
  import opened Geometry
  import opened Candidates
  import opened HexCells

  /** The distance the engine expects a ring to be away at least. */
  function MinRingDist(hexWidth: real, ring: nat): real {
    if ring > 0 then (ring as real - 0.5) * hexWidth else 0.0
  }

  /** The drivers in the first `n` rings, counting the centre as one. */
  ghost function WithinRings(cells: map<Id, int>, c: Cell, n: nat): set<Id> {
    set id | id in cells && exists x :: PackCellId(x) == cells[id] && HexDistance(c, x) < n
  }

  // ---- Where the search stops ----

  /** Those of `seen` that are in radius and at most `d` away. */
  ghost function Near(index: map<Id, Pos>, seen: set<Id>, q: Query, d: real): set<Id> {
    set id | id in seen && InRadius(index, q, id) && q.metric(q.from, index[id]) <= d
  }

  /** Enough drivers of the rings before `n` are as near as ring `n` is expected to be. */
  ghost predicate CutsOff(index: map<Id, Pos>, cells: map<Id, int>, c: Cell, hexWidth: real, q: Query, n: nat) {
    q.k <= |Near(index, WithinRings(cells, c, n), q, MinRingDist(hexWidth, n))|
  }

  /** The first ring, from `n` on, that the search does not visit. */
  ghost function StopRing(
    index: map<Id, Pos>, cells: map<Id, int>, c: Cell, hexWidth: real, q: Query, maxRings: int, n: nat): nat
    decreases maxRings - n
  {
    if maxRings < n || CutsOff(index, cells, c, hexWidth, q, n) then n
    else StopRing(index, cells, c, hexWidth, q, maxRings, n + 1)
  }

  lemma {:induction false} StopRingIsFirst(
      index: map<Id, Pos>, cells: map<Id, int>, c: Cell, hexWidth: real, q: Query, maxRings: int, n: nat)
    requires n <= maxRings + 1
    ensures
      var stop := StopRing(index, cells, c, hexWidth, q, maxRings, n);
      && n <= stop <= maxRings + 1 && (stop <= maxRings ==> CutsOff(index, cells, c, hexWidth, q, stop))
      && forall m: nat | n <= m < stop :: !CutsOff(index, cells, c, hexWidth, q, m)
    decreases maxRings - n
  {
    if n <= maxRings && !CutsOff(index, cells, c, hexWidth, q, n) {
      StopRingIsFirst(index, cells, c, hexWidth, q, maxRings, n + 1);
    }
  }

  /** When a ring is cut off, in numbers: k drivers of the rings before it are in radius and at most as far as its inner
      edge is taken to be. */
  lemma CutsOffMeans(index: map<Id, Pos>, cells: map<Id, int>, c: Cell, hexWidth: real, q: Query, n: nat)
    requires 0 < q.k
    ensures CutsOff(index, cells, c, hexWidth, q, n) <==>
              0 < n && q.k <= |Near(index, WithinRings(cells, c, n), q, (n as real - 0.5) * hexWidth)|
  {
    if n == 0 {
      assert WithinRings(cells, c, 0) == {};
      assert Near(index, WithinRings(cells, c, 0), q, MinRingDist(hexWidth, 0)) == {};
    }
  }

  lemma NearGrows(index: map<Id, Pos>, seen: set<Id>, q: Query, d: real, d': real)
    requires d <= d'
    ensures |Near(index, seen, q, d)| <= |Near(index, seen, q, d')|
  {
    SubsetSmaller(Near(index, seen, q, d), Near(index, seen, q, d'));
  }

  /** A driver on a ring that is not visited is left out for a reason: k visited drivers in radius are at most as far as
      the inner edge of its ring is taken to be. */
  lemma LeftOutForNearer(index: map<Id, Pos>, cells: map<Id, int>, c: Cell, hexWidth: real, q: Query, maxRings: int,
    id: Id, x: Cell, n: nat, edge: real)
    requires 0 < q.k && 0.0 <= hexWidth && -1 <= maxRings && id in cells && PackCellId(x) == cells[id]
    requires HexDistance(c, x) == n && n <= maxRings && edge == (n as real - 0.5) * hexWidth
    requires id !in WithinRings(cells, c, StopRing(index, cells, c, hexWidth, q, maxRings, 0))
    ensures
      var visited := WithinRings(cells, c, StopRing(index, cells, c, hexWidth, q, maxRings, 0));
      1 <= n && q.k <= |Near(index, visited, q, edge)|
  {
    var stop := StopRing(index, cells, c, hexWidth, q, maxRings, 0);
    StopRingIsFirst(index, cells, c, hexWidth, q, maxRings, 0);
    assert stop <= n;
    CutOffBefore(index, cells, c, hexWidth, q, stop, n, edge);
  }

  lemma CutOffBefore(index: map<Id, Pos>, cells: map<Id, int>, c: Cell, hexWidth: real, q: Query, stop: nat, n: nat,
    edge: real)
    requires 0 < q.k && 0.0 <= hexWidth && stop <= n && CutsOff(index, cells, c, hexWidth, q, stop)
    requires edge == (n as real - 0.5) * hexWidth
    ensures 1 <= n && q.k <= |Near(index, WithinRings(cells, c, stop), q, edge)|
  {
    CutsOffMeans(index, cells, c, hexWidth, q, stop);
    EdgesGrow(hexWidth, stop, n);
    NearGrows(index, WithinRings(cells, c, stop), q, (stop as real - 0.5) * hexWidth, edge);
  }

  lemma EdgesGrow(hexWidth: real, m: nat, n: nat)
    requires 0.0 <= hexWidth && m <= n
    ensures (m as real - 0.5) * hexWidth <= (n as real - 0.5) * hexWidth
  {
    assert ((n - m) as real) * hexWidth >= 0.0;
  }

  /** The search goes on past a ring that is not cut off. */
  lemma GoesOn(index: map<Id, Pos>, cells: map<Id, int>, c: Cell, hexWidth: real, q: Query, maxRings: int, n: nat)
    ensures
      StopRing(index, cells, c, hexWidth, q, maxRings, n) ==
        if maxRings < n || CutsOff(index, cells, c, hexWidth, q, n) then n
        else StopRing(index, cells, c, hexWidth, q, maxRings, n + 1)
  {
  }

  /** A best list is full and at most `d` away at its end exactly when k of the drivers seen are. */
  lemma BeatenIffEnoughNear(index: map<Id, Pos>, seen: set<Id>, q: Query, r: seq<Candidate>, d: real)
    requires 0 < q.k && |r| <= q.k && BestOf(seen, index, q, r)
    ensures Beaten(r, q.k, d) <==> q.k <= |Near(index, seen, q, d)|
  {
    var near := Near(index, seen, q, d);
    IdsCardinality(r);
    if Beaten(r, q.k, d) {
      forall id | id in Ids(r) ensures id in near {
        ListedIsNear(index, seen, q, r, id);
      }
      SubsetSmaller(Ids(r), near);
    } else {
      NearIsListed(index, seen, q, r, d);
      if |r| == q.k {
        var last := r[|r| - 1];
        assert last in r && last.id in Ids(r);
        assert near <= Ids(r) - {last.id};
        SubsetSmaller(near, Ids(r) - {last.id});
      } else {
        SubsetSmaller(near, Ids(r));
      }
    }
  }

  lemma ListedIsNear(index: map<Id, Pos>, seen: set<Id>, q: Query, r: seq<Candidate>, id: Id)
    requires BestOf(seen, index, q, r) && id in Ids(r)
    ensures id in seen && InRadius(index, q, id) && q.metric(q.from, index[id]) <= r[|r| - 1].distance
  {
    var i :| 0 <= i < |r| && r[i].id == id;
    assert r[i] in r;
  }

  lemma NearIsListed(index: map<Id, Pos>, seen: set<Id>, q: Query, r: seq<Candidate>, d: real)
    requires BestOf(seen, index, q, r) && !Beaten(r, q.k, d)
    ensures Near(index, seen, q, d) <= Ids(r)
  {
    forall id | id in Near(index, seen, q, d) ensures id in Ids(r) {
      assert Beaten(r, q.k, q.metric(q.from, index[id])) ==> Beaten(r, q.k, d);
    }
  }

  // ---- When that is exact ----

  /** Every driver in radius that the search does not visit has k visited ones at most as far. */
  ghost predicate RestBeaten(index: map<Id, Pos>, visited: set<Id>, q: Query) {
    forall id | id in index && id !in visited && InRadius(index, q, id) ::
      q.k <= |Near(index, visited, q, q.metric(q.from, index[id]))|
  }

  /** The answer over the visited rings is the answer over all drivers if and only if every other driver in
      radius has k visited ones at most as far: a condition on the drivers and the query alone. */
  lemma SearchExactIff(
    index: map<Id, Pos>, cells: map<Id, int>, c: Cell, hexWidth: real, q: Query, maxRings: int, r: seq<Candidate>)
    requires cells.Keys == index.Keys && 0 < q.k && |r| <= q.k
    requires BestOf(WithinRings(cells, c, StopRing(index, cells, c, hexWidth, q, maxRings, 0)), index, q, r)
    ensures
      IsKnn(index, q, r) <==>
        RestBeaten(index, WithinRings(cells, c, StopRing(index, cells, c, hexWidth, q, maxRings, 0)), q)
  {
    var visited := WithinRings(cells, c, StopRing(index, cells, c, hexWidth, q, maxRings, 0));
    forall id | id in index && id !in visited && InRadius(index, q, id)
      ensures Beaten(r, q.k, q.metric(q.from, index[id])) <==>
          q.k <= |Near(index, visited, q, q.metric(q.from, index[id]))|
    {
      BeatenIffEnoughNear(index, visited, q, r, q.metric(q.from, index[id]));
    }
  }

  /** If no driver beyond any ring were nearer than the engine expects of that ring, and none in radius beyond
      the last one, the search would be exact for every k. */
  lemma RingBoundSuffices(
    index: map<Id, Pos>, cells: map<Id, int>, c: Cell, hexWidth: real, q: Query, maxRings: int)
    requires -1 <= maxRings && cells.Keys == index.Keys
    requires forall id, n: nat | id in index && id !in WithinRings(cells, c, n) ::
        MinRingDist(hexWidth, n) <= q.metric(q.from, index[id])
    requires forall id | InRadius(index, q, id) :: id in WithinRings(cells, c, maxRings + 1)
    ensures RestBeaten(index, WithinRings(cells, c, StopRing(index, cells, c, hexWidth, q, maxRings, 0)), q)
  {
    var stop := StopRing(index, cells, c, hexWidth, q, maxRings, 0);
    StopRingIsFirst(index, cells, c, hexWidth, q, maxRings, 0);
    var visited := WithinRings(cells, c, stop);
    forall id | id in index && id !in visited && InRadius(index, q, id)
      ensures q.k <= |Near(index, visited, q, q.metric(q.from, index[id]))|
    {
      var bound := MinRingDist(hexWidth, stop);
      assert Near(index, visited, q, bound) <= Near(index, visited, q, q.metric(q.from, index[id]));
      SubsetSmaller(Near(index, visited, q, bound), Near(index, visited, q, q.metric(q.from, index[id])));
    }
  }

  // ---- How many rings ----

  function Ceiling(x: real): int { -((-x).Floor) }

  /** The number of the last ring for a search radius. */
  function MaxRings(radius: real, hexWidth: real): int
    requires 0.0 < hexWidth
  {
    Ceiling(radius / hexWidth) + 1
  }

  lemma PositiveFactor(a: real, w: real)
    requires 0.0 < w
    ensures 0.0 < a * w ==> 0.0 < a
  {
    if a <= 0.0 {
      assert -a * w >= 0.0;
    }
  }

  lemma MaxRingsBounds(radius: real, hexWidth: real)
    requires 0.0 < hexWidth
    ensures (MaxRings(radius, hexWidth) as real - 2.0) * hexWidth < radius
    ensures radius <= (MaxRings(radius, hexWidth) as real - 1.0) * hexWidth
    ensures 0.0 < radius ==> 2 <= MaxRings(radius, hexWidth)
  {
    var x, n := radius / hexWidth, Ceiling(radius / hexWidth);
    assert x * hexWidth == radius;
    assert MaxRings(radius, hexWidth) as real - 1.0 == n as real;
    ScaledBetween(n as real - 1.0, x, n as real, hexWidth);
    PositiveFactor(n as real, hexWidth);
  }

  lemma ScaledBetween(a: real, x: real, b: real, w: real)
    requires a < x <= b && 0.0 < w
    ensures a * w < x * w <= b * w
  {
    assert (x - a) * w > 0.0 && (b - x) * w >= 0.0;
  }

  // ---- How far a ring really is ----

  lemma HexagonRadius(c: Cell, qFrac: real, rFrac: real)
    requires InHexagon(c, qFrac, rFrac)
    ensures
      var eq, er := c.q as real - qFrac, c.r as real - rFrac;
      -2.0 / 3.0 <= eq <= 2.0 / 3.0 && -2.0 / 3.0 <= er <= 2.0 / 3.0 && -2.0 / 3.0 <= eq + er <= 2.0 / 3.0
  {
  }

  lemma CompletedSquares(a: real, b: real)
    ensures Norm(a, b) == 1.5 * (a * a) + 2.0 * ((b + 0.5 * a) * (b + 0.5 * a))
    ensures Norm(a, b) == 1.5 * ((a + b) * (a + b)) + 0.5 * ((a - b) * (a - b))
    ensures Norm(a, b) == Norm(b, a)
  {
  }

  lemma NormAtLeast(a: real, b: real, m: real)
    requires 0.0 <= m && (AbsReal(a) >= m || AbsReal(b) >= m || AbsReal(a + b) >= m)
    ensures Norm(a, b) >= 1.5 * (m * m)
  {
    CompletedSquares(a, b);
    CompletedSquares(b, a);
    SquareAtLeast(a, m);
    SquareAtLeast(b, m);
    SquareAtLeast(a + b, m);
    SquareAtLeast(a - b, m);
    SquareAtLeast(b + 0.5 * a, m);
    SquareAtLeast(a + 0.5 * b, m);
  }

  lemma SquareAtLeast(a: real, m: real)
    requires 0.0 <= m
    ensures AbsReal(a) >= m ==> a * a >= m * m
    ensures a * a >= 0.0
  {
    if AbsReal(a) >= m {
      var size := AbsReal(a);
      assert size * size >= size * m >= m * m;
      assert a * a == size * size;
    }
  }

  /** Points of hexagons n >= 2 steps apart are at least sqrt(3) / 2 * (n - 4 / 3) cell widths apart in the plane;
      `Norm` is twice the square of their distance in cell widths. */
  lemma RingGap(c: Cell, x: Cell, q1: real, r1: real, q2: real, r2: real)
    requires InHexagon(c, q1, r1) && InHexagon(x, q2, r2) && 2 <= HexDistance(c, x)
    ensures
      var gap := HexDistance(c, x) as real - 4.0 / 3.0;
      Norm(q2 - q1, r2 - r1) >= 1.5 * (gap * gap)
  {
    HexagonRadius(c, q1, r1);
    HexagonRadius(x, q2, r2);
    NormAtLeast(q2 - q1, r2 - r1, HexDistance(c, x) as real - 4.0 / 3.0);
  }
}
