/** The arithmetic of the hexagonal grid: packed cell ids, the ring walk and cube rounding. */
module HexCells {

  /** Axial coordinates; the third cube coordinate is -q - r. */
  datatype Cell = Cell(q: int, r: int)

  // ---- Packed ids ----

  const TWO32 := 0x1_0000_0000
  const TWO31 := 0x8000_0000

  predicate Int32(x: int) { -TWO31 <= x < TWO31 }

  function Unsigned32(x: int): int { x % TWO32 }

  function Signed32(u: int): int { if u < TWO31 then u else u - TWO32 }

  /** Each coordinate as an unsigned 32-bit word, q in the high one. */
  function PackCellId(c: Cell): int {
    Unsigned32(c.q) * TWO32 + Unsigned32(c.r)
  }

  function UnpackCellId(id: int): Cell {
    Cell(Signed32(id / TWO32), Signed32(id % TWO32))
  }

  lemma UnpackInvertsPack(c: Cell)
    requires Int32(c.q) && Int32(c.r)
    ensures 0 <= PackCellId(c) < TWO32 * TWO32 && UnpackCellId(PackCellId(c)) == c
  {
  }

  lemma PackInvertsUnpack(id: int)
    requires 0 <= id < TWO32 * TWO32
    ensures PackCellId(UnpackCellId(id)) == id && Int32(UnpackCellId(id).q) && Int32(UnpackCellId(id).r)
  {
  }

  /** Two cells share an id exactly when both coordinates agree as 32-bit words. */
  lemma PackCollides(a: Cell, b: Cell)
    ensures PackCellId(a) == PackCellId(b) <==> (a.q - b.q) % TWO32 == 0 && (a.r - b.r) % TWO32 == 0
  {
  }

  // ---- Distance and rings ----

  function Abs(x: int): nat { if x < 0 then -x else x }

  /** Steps from one cell to another. */
  function HexDistance(a: Cell, b: Cell): nat {
    var dq, dr := Abs(a.q - b.q), Abs(a.r - b.r);
    var ds := Abs(a.q - b.q + a.r - b.r);
    if dq <= ds && dr <= ds then ds else if dq <= dr then dr else dq
  }

  /** The six directions, in the order the sides of a ring are walked. */
  function Direction(side: nat): Cell
    requires side < 6
  {
    [Cell(1, 0), Cell(1, -1), Cell(0, -1), Cell(-1, 0), Cell(-1, 1), Cell(0, 1)][side]
  }

  function Step(c: Cell, d: Cell): Cell { Cell(c.q + d.q, c.r + d.r) }

  lemma HexDistanceIsMetric(a: Cell, b: Cell, c: Cell)
    ensures HexDistance(a, c) <= HexDistance(a, b) + HexDistance(b, c)
    ensures HexDistance(a, b) == HexDistance(b, a) && (HexDistance(a, b) == 0 <==> a == b)
  {
  }

  /** Where the walk around ring `n` is after `step` steps of a side. */
  function RingAt(c: Cell, n: nat, side: nat, step: nat): Cell
    requires side <= 6
  {
    match side
    case 0 => Cell(c.q - n + step, c.r + n)
    case 1 => Cell(c.q + step, c.r + n - step)
    case 2 => Cell(c.q + n, c.r - step)
    case 3 => Cell(c.q + n - step, c.r - n)
    case 4 => Cell(c.q - step, c.r - n + step)
    case 5 => Cell(c.q - n, c.r + step)
    case _ => Cell(c.q - n, c.r + n)
  }

  function SideCells(c: Cell, n: nat, side: nat, steps: nat): seq<Cell>
    requires side < 6
  {
    seq(steps, step requires 0 <= step < steps => RingAt(c, n, side, step))
  }

  function SidesBefore(c: Cell, n: nat, side: nat): seq<Cell>
    requires side <= 6
  {
    if side == 0 then [] else SidesBefore(c, n, side - 1) + SideCells(c, n, side - 1, n)
  }

  const SIDES: nat := 6

  /** The cells of ring `n`, in the order they are inspected. */
  function RingCells(c: Cell, n: nat): seq<Cell> {
    if n == 0 then [c] else SidesBefore(c, n, SIDES)
  }

  function PackAll(cells: seq<Cell>): seq<int> {
    seq(|cells|, i requires 0 <= i < |cells| => PackCellId(cells[i]))
  }

  /** The two nested loops over sides and steps; the walk ends where it began. */
  method WalkRing(c: Cell, ring: nat) returns (ringCells: seq<int>)
    requires 1 <= ring
    ensures ringCells == PackAll(RingCells(c, ring))
  {
    ringCells := [];
    ghost var cells: seq<Cell> := [];
    var cur := Cell(c.q + Direction(4).q * ring, c.r + Direction(4).r * ring);
    ghost var start := cur;
    for side := 0 to 6
      invariant ringCells == PackAll(cells) && cells == SidesBefore(c, ring, side) && cur == RingAt(c, ring, side, 0)
    {
      for step := 0 to ring
        invariant ringCells == PackAll(cells) && cur == RingAt(c, ring, side, step)
        invariant cells == SidesBefore(c, ring, side) + SideCells(c, ring, side, step)
      {
        assert SideCells(c, ring, side, step + 1) == SideCells(c, ring, side, step) + [cur];
        ringCells, cells := ringCells + [PackCellId(cur)], cells + [cur];
        cur := Step(cur, Direction(side));
      }
    }
    assert cur == start;
  }

  lemma {:induction false} SidesLength(c: Cell, n: nat, side: nat)
    requires side <= 6
    ensures |SidesBefore(c, n, side)| == side * n
  {
    if side > 0 {
      SidesLength(c, n, side - 1);
    }
  }

  /** A cell of the walk lies on its ring. */
  lemma {:induction false} SidesOnRing(c: Cell, n: nat, side: nat, x: Cell)
    requires side <= 6
    ensures x in SidesBefore(c, n, side) <==>
        exists s: nat, step: nat :: s < side && step < n && x == RingAt(c, n, s, step)
  {
    if side > 0 {
      SidesOnRing(c, n, side - 1, x);
      assert x in SidesBefore(c, n, side) <==> x in SidesBefore(c, n, side - 1) || x in SideCells(c, n, side - 1, n);
      if x in SideCells(c, n, side - 1, n) {
        var step :| 0 <= step < n && SideCells(c, n, side - 1, n)[step] == x;
        assert x == RingAt(c, n, side - 1, step);
      }
      if s: nat, step: nat :| s < side && step < n && x == RingAt(c, n, s, step) {
        if s == side - 1 {
          assert SideCells(c, n, side - 1, n)[step] == x;
        }
      }
    }
  }

  /** The side and step at which the walk passes a cell of its ring. */
  function Locate(c: Cell, n: nat, x: Cell): (nat, nat)
    requires 1 <= n && HexDistance(c, x) == n
  {
    var dq, dr := x.q - c.q, x.r - c.r;
    if dr == n && dq < 0 then (0, dq + n)
    else if dq >= 0 && dr > 0 then (1, dq)
    else if dq == n && dr + n > 0 then (2, -dr)
    else if dr + n == 0 && dq > 0 then (3, n - dq)
    else if dq <= 0 && dr < 0 then (4, -dq)
    else (5, dr)
  }

  /** Every cell of the ring is passed, at one side and step only. */
  lemma RingAtExact(c: Cell, n: nat, x: Cell)
    requires 1 <= n
    ensures HexDistance(c, x) == n ==>
              var (side, step) := Locate(c, n, x); side < 6 && step < n && x == RingAt(c, n, side, step)
    ensures forall side: nat, step: nat | side < 6 && step < n && x == RingAt(c, n, side, step) ::
              HexDistance(c, x) == n && Locate(c, n, x) == (side, step)
  {
  }

  lemma {:induction false} SidesDistinct(c: Cell, n: nat, side: nat)
    requires side <= 6 && 1 <= n
    ensures forall i, j | 0 <= i < j < |SidesBefore(c, n, side)| ::
        SidesBefore(c, n, side)[i] != SidesBefore(c, n, side)[j]
  {
    if side > 0 {
      SidesDistinct(c, n, side - 1);
      var front, last := SidesBefore(c, n, side - 1), SideCells(c, n, side - 1, n);
      forall x | x in front ensures x !in last {
        SidesOnRing(c, n, side - 1, x);
        RingAtExact(c, n, x);
      }
      forall i, j | 0 <= i < j < n ensures last[i] != last[j] {
        RingAtExact(c, n, last[i]);
      }
      DistinctJoin(front, last);
    }
  }

  lemma DistinctJoin(a: seq<Cell>, b: seq<Cell>)
    requires (forall i, j | 0 <= i < j < |a| :: a[i] != a[j]) && (forall i, j | 0 <= i < j < |b| :: b[i] != b[j])
    requires forall x | x in a :: x !in b
    ensures forall i, j | 0 <= i < j < |a + b| :: (a + b)[i] != (a + b)[j]
  {
    forall i, j | 0 <= i < j < |a + b| ensures (a + b)[i] != (a + b)[j] {
      assert (a + b)[i] == if i < |a| then a[i] else b[i - |a|];
      assert (a + b)[j] == if j < |a| then a[j] else b[j - |a|];
      assert i < |a| ==> a[i] in a;
      assert j >= |a| ==> b[j - |a|] in b;
    }
  }

  /** The ring walk is exact: 6n different cells, and precisely those at distance n. */
  lemma RingWalkExact(c: Cell, n: nat)
    requires 1 <= n
    ensures |RingCells(c, n)| == 6 * n
    ensures forall i, j | 0 <= i < j < |RingCells(c, n)| :: RingCells(c, n)[i] != RingCells(c, n)[j]
    ensures forall x :: x in RingCells(c, n) <==> HexDistance(c, x) == n
  {
    SidesLength(c, n, 6);
    SidesDistinct(c, n, 6);
    forall x ensures x in RingCells(c, n) <==> HexDistance(c, x) == n {
      SidesOnRing(c, n, 6, x);
      RingAtExact(c, n, x);
    }
  }

  // ---- Balls ----

  /** The cells of the rings up to `n`, in the order they are visited. */
  function BallCells(c: Cell, n: nat): seq<Cell> {
    if n == 0 then [c] else BallCells(c, n - 1) + RingCells(c, n)
  }

  lemma OnRing(c: Cell, n: nat, x: Cell)
    ensures x in RingCells(c, n) <==> HexDistance(c, x) == n
  {
    if n == 0 {
      HexDistanceIsMetric(c, x, c);
    } else {
      RingWalkExact(c, n);
    }
  }

  lemma {:induction false} InBall(c: Cell, n: nat, x: Cell)
    ensures x in BallCells(c, n) <==> HexDistance(c, x) <= n
  {
    if n == 0 {
      HexDistanceIsMetric(c, x, c);
    } else {
      OnRing(c, n, x);
      InBall(c, n - 1, x);
      InEither(BallCells(c, n - 1), RingCells(c, n), x);
    }
  }

  lemma InEither(a: seq<Cell>, b: seq<Cell>, x: Cell)
    ensures x in a + b <==> x in a || x in b
  {
  }

  /** A ring shares no cell with a smaller ball. */
  lemma RingApart(c: Cell, n: nat, m: nat, x: Cell)
    requires m < n && x in BallCells(c, m)
    ensures x !in RingCells(c, n)
  {
    OnRing(c, n, x);
    InBall(c, m, x);
  }

  lemma {:induction false} BallDistinct(c: Cell, n: nat, cells: seq<Cell>)
    requires cells == BallCells(c, n)
    ensures forall i, j | 0 <= i < j < |cells| :: cells[i] != cells[j]
  {
    if n > 0 {
      var inner, ring := BallCells(c, n - 1), RingCells(c, n);
      BallDistinct(c, n - 1, inner);
      SidesDistinct(c, n, SIDES);
      forall x | x in inner ensures x !in ring {
        RingApart(c, n, n - 1, x);
      }
      JoinApart(inner, ring, cells);
    }
  }

  lemma JoinApart(a: seq<Cell>, b: seq<Cell>, joined: seq<Cell>)
    requires joined == a + b && forall x | x in a :: x !in b
    requires forall i, j | 0 <= i < j < |a| :: a[i] != a[j]
    requires forall i, j | 0 <= i < j < |b| :: b[i] != b[j]
    ensures forall i, j | 0 <= i < j < |joined| :: joined[i] != joined[j]
  {
    DistinctJoin(a, b);
  }

  lemma {:induction false} BallSize(c: Cell, n: nat)
    ensures |BallCells(c, n)| == 3 * (n * (n + 1)) + 1
  {
    if n > 0 {
      BallSize(c, n - 1);
      SidesLength(c, n, SIDES);
      assert n * (n + 1) == (n - 1) * n + 2 * n;
    }
  }

  /** The rings up to `n` visit the cells within distance `n`, each once: 3n(n + 1) + 1 of them. */
  lemma BallExact(c: Cell, n: nat)
    ensures forall x :: x in BallCells(c, n) <==> HexDistance(c, x) <= n
    ensures forall i, j | 0 <= i < j < |BallCells(c, n)| :: BallCells(c, n)[i] != BallCells(c, n)[j]
    ensures |BallCells(c, n)| == 3 * (n * (n + 1)) + 1
  {
    forall x ensures x in BallCells(c, n) <==> HexDistance(c, x) <= n {
      InBall(c, n, x);
    }
    BallDistinct(c, n, BallCells(c, n));
    BallSize(c, n);
  }

  /** Within a ball smaller than the 32-bit range even wrapped ids are different. */
  lemma PackedBallDistinct(c: Cell, n: nat, a: Cell, b: Cell)
    requires n < TWO31 && HexDistance(c, a) <= n && HexDistance(c, b) <= n && PackCellId(a) == PackCellId(b)
    ensures a == b
  {
    PackCollides(a, b);
  }

  // ---- Cube rounding ----

  /** Rounds to the nearest integer, halves away from zero. */
  function Round(x: real): (n: int)
    ensures -0.5 <= n as real - x <= 0.5
    ensures n as real - x == 0.5 ==> x > 0.0
    ensures n as real - x == -0.5 ==> x < 0.0
  {
    if x >= 0.0 then (x + 0.5).Floor else -((-x + 0.5).Floor)
  }

  function AbsReal(x: real): real { if x < 0.0 then -x else x }

  /** The cell of fractional axial coordinates. */
  function CubeRound(qFrac: real, rFrac: real): Cell {
    var sFrac := -qFrac - rFrac;
    var qRound, rRound, sRound := Round(qFrac), Round(rFrac), Round(sFrac);
    var qDiff, rDiff, sDiff :=
      AbsReal(qRound as real - qFrac), AbsReal(rRound as real - rFrac), AbsReal(sRound as real - sFrac);
    if qDiff > rDiff && qDiff > sDiff then Cell(-rRound - sRound, rRound)
    else if rDiff > sDiff then Cell(qRound, -qRound - sRound)
    else Cell(qRound, rRound)
  }

  /** The point lies in the closed hexagon of the cell: no two errors differ by more than one. */
  predicate InHexagon(c: Cell, qFrac: real, rFrac: real) {
    var eq, er := c.q as real - qFrac, c.r as real - rFrac;
    var es := -eq - er;
    -1.0 <= eq - er <= 1.0 && -1.0 <= er - es <= 1.0 && -1.0 <= es - eq <= 1.0
  }

  lemma CubeRoundInHexagon(qFrac: real, rFrac: real)
    ensures InHexagon(CubeRound(qFrac, rFrac), qFrac, rFrac)
  {
    var sFrac := -qFrac - rFrac;
    var qRound, rRound, sRound := Round(qFrac), Round(rFrac), Round(sFrac);
    var eq, er, es := qRound as real - qFrac, rRound as real - rFrac, sRound as real - sFrac;
    assert eq + er + es == (qRound + rRound + sRound) as real;
    assert -1.5 <= (qRound + rRound + sRound) as real <= 1.5;
    assert -1 <= qRound + rRound + sRound <= 1;
  }

  /** Twice the squared distance, in units of the cell width, from a point to the centre of a cell. */
  function CentreDistance(c: Cell, qFrac: real, rFrac: real): real {
    Norm(c.q as real - qFrac, c.r as real - rFrac)
  }

  lemma UnitScale(size: real, x: real)
    requires 0.0 <= size && -1.0 <= x <= 1.0
    ensures -size <= size * x <= size
  {
    assert size * (1.0 - x) >= 0.0 && size * (1.0 + x) >= 0.0;
  }

  lemma Scaled(a: int, x: real)
    requires -1.0 <= x <= 1.0
    ensures -(Abs(a) as real) <= a as real * x <= Abs(a) as real
  {
    if a >= 0 {
      UnitScale(a as real, x);
    } else {
      UnitScale(-(a as real), x);
    }
  }

  function Span(a: int, b: int): nat { HexDistance(Cell(0, 0), Cell(a, b)) }

  lemma Squares(a: int)
    ensures a * a >= Abs(a)
  {
    Grows(a, a);
  }

  lemma Grows(a: int, b: int)
    requires b != 0 ==> (a >= 0 <==> b >= 0)
    ensures a * b >= if b == 0 then 0 else Abs(a)
  {
    if b > 0 {
      assert a * b == a * (b - 1) + a && a * (b - 1) >= 0;
    } else if b < 0 {
      assert a * b == -a * (-b - 1) - a && -a * (-b - 1) >= 0;
    }
  }

  lemma LatticeNorm(a: int, b: int)
    ensures a * a + b * b + a * b >= Span(a, b)
  {
    Squares(a);
    Squares(b);
    if (a >= 0) == (b >= 0) {
      Grows(a, b);
    } else if (a + b >= 0) == (a >= 0) {
      assert a * a + a * b == a * (a + b);
      Grows(a, a + b);
    } else {
      assert b * b + a * b == b * (a + b);
      Grows(b, a + b);
    }
  }

  lemma Regroup(a: real, b: real, x: real, y: real)
    ensures a * x + b * y == (a + b) * x - b * (x - y)
    ensures a * x + b * y == (a + b) * y + a * (x - y)
  {
  }

  /** Every lattice vector outweighs what a point of the hexagon can gain along it. */
  lemma HexagonGain(a: int, b: int, x: real, y: real)
    requires -1.0 <= x <= 1.0 && -1.0 <= y <= 1.0 && -1.0 <= x - y <= 1.0
    ensures a as real * x + b as real * y >= -(Span(a, b) as real)
  {
    if (a >= 0) == (b >= 0) {
      Scaled(a, x);
      Scaled(b, y);
    } else if (a + b >= 0) == (a >= 0) {
      Regroup(a as real, b as real, x, y);
      GainAlong(a + b, b, x, x - y);
    } else {
      Regroup(b as real, a as real, y, x);
      GainAlong(a + b, a, y, y - x);
    }
  }

  lemma GainAlong(sum: int, b: int, x: real, z: real)
    requires -1.0 <= x <= 1.0 && -1.0 <= z <= 1.0
    ensures sum as real * x - b as real * z >= -(Abs(sum) as real) - Abs(b) as real
  {
    Scaled(sum, x);
    Scaled(b, z);
  }

  function Norm(q: real, r: real): real { q * q + r * r + (-q - r) * (-q - r) }

  lemma Shifted(q: real, r: real, a: real, b: real)
    ensures Norm(q + a, r + b) - Norm(q, r) == 2.0 * (a * (q - (-q - r)) + b * (r - (-q - r)) + (a * a + b * b + a * b))
  {
  }

  lemma CastProducts(a: int, b: int)
    ensures (a * a + b * b + a * b) as real == a as real * a as real + b as real * b as real + a as real * b as real
  {
  }

  lemma LatticeGain(a: int, b: int, x: real, y: real)
    requires -1.0 <= x <= 1.0 && -1.0 <= y <= 1.0 && -1.0 <= x - y <= 1.0
    ensures a as real * x + b as real * y +
        (a as real * a as real + b as real * b as real + a as real * b as real) >= 0.0
  {
    HexagonGain(a, b, x, y);
    LatticeNorm(a, b);
    CastProducts(a, b);
  }

  /** A cell whose hexagon contains the point has a nearest centre. */
  lemma HexagonIsNearest(c: Cell, other: Cell, qFrac: real, rFrac: real)
    requires InHexagon(c, qFrac, rFrac)
    ensures CentreDistance(c, qFrac, rFrac) <= CentreDistance(other, qFrac, rFrac)
  {
    var eq, er := c.q as real - qFrac, c.r as real - rFrac;
    var es := -eq - er;
    var a, b := other.q - c.q, other.r - c.r;
    LatticeGain(a, b, eq - es, er - es);
    Shifted(eq, er, a as real, b as real);
  }
}
