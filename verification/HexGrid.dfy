/** The hexagonal engine: buckets of driver records by packed cell id, and a search ring by ring. */
module HexGrid {
  import opened Geometry
  import opened Candidates
  import opened HexCells
  import opened HexSearch

  class HexDriverRecord {
    const id: Id
    var pos: Pos
    var cellId: int

    constructor (id: Id, pos: Pos, cellId: int)
      ensures this.id == id && this.pos == pos && this.cellId == cellId
    {
      this.id, this.pos, this.cellId := id, pos, cellId;
    }
  }

  class HexGrid {
    const project: Pos -> (real, real)    // fractional axial coordinates
    const hexWidth: real
    var hexBuckets: map<int, seq<HexDriverRecord>>
    var driverIndex: map<Id, HexDriverRecord>

    function LatLngToCell(pos: Pos): int {
      PackCellId(CubeRound(project(pos).0, project(pos).1))
    }

    function Bucket(cellId: int): seq<HexDriverRecord>
      reads this`hexBuckets
    {
      if cellId in hexBuckets then hexBuckets[cellId] else []
    }

    /** A driver's record lies in the bucket of the cell of its position. */
    ghost predicate Filed(id: Id)
      requires id in driverIndex
      reads this, driverIndex.Values
    {
      var record := driverIndex[id];
      record.id == id && record.cellId == LatLngToCell(record.pos) && record in Bucket(record.cellId)
    }

    /** A bucket holds only records of its cell, each driver at most once. */
    ghost predicate BucketOk(cellId: int)
      reads this, driverIndex.Values
    {
      var bucket := Bucket(cellId);
      && (forall i {:trigger bucket[i]} | 0 <= i < |bucket| ::
            bucket[i].id in driverIndex && driverIndex[bucket[i].id] == bucket[i] && bucket[i].cellId == cellId)
      && forall i, j | 0 <= i < j < |bucket| :: bucket[i] != bucket[j]
    }

    ghost predicate Valid()
      reads this, driverIndex.Values
    {
      && (forall id {:trigger Filed(id)} | id in driverIndex :: Filed(id))
      && (forall cellId {:trigger BucketOk(cellId)} :: BucketOk(cellId))
    }

    ghost function Contents(): map<Id, Pos>
      reads this`driverIndex, driverIndex.Values
    {
      map id | id in driverIndex :: driverIndex[id].pos
    }

    constructor (project: Pos -> (real, real), hexWidth: real)
      ensures Valid() && Contents() == map[] && this.project == project && this.hexWidth == hexWidth
    {
      this.project, this.hexWidth := project, hexWidth;
      hexBuckets, driverIndex := map[], map[];
    }

    // ---- Records in their buckets ----

    /** Erases the record of a driver from a bucket. */
    method Erase(cellId: int, id: Id)
      requires forall i, j | 0 <= i < j < |Bucket(cellId)| :: Bucket(cellId)[i].id != Bucket(cellId)[j].id
      modifies this`hexBuckets
      ensures hexBuckets == old(hexBuckets)[cellId := Bucket(cellId)]
      ensures forall x :: x in Bucket(cellId) <==> x in old(Bucket(cellId)) && x.id != id
      ensures forall i, j | 0 <= i < j < |Bucket(cellId)| :: Bucket(cellId)[i].id != Bucket(cellId)[j].id
    {
      var bucket := Bucket(cellId);
      var i := 0;
      while i < |bucket| && bucket[i].id != id
        invariant i <= |bucket| && forall j | 0 <= j < i :: bucket[j].id != id
      {
        i := i + 1;
      }
      if i < |bucket| {
        bucket := bucket[..i] + bucket[i + 1..];
      }
      hexBuckets := hexBuckets[cellId := bucket];
    }

    lemma BucketIds(cellId: int)
      requires BucketOk(cellId)
      ensures forall i, j | 0 <= i < j < |Bucket(cellId)| :: Bucket(cellId)[i].id != Bucket(cellId)[j].id
    {
      var bucket := Bucket(cellId);
      forall i, j | 0 <= i < j < |bucket| ensures bucket[i].id != bucket[j].id {
        assert driverIndex[bucket[i].id] == bucket[i];
      }
    }

    method Insert(id: Id, lat: real, lng: real) returns (ok: bool)
      requires Valid()
      modifies this`hexBuckets, this`driverIndex
      ensures Valid() && ok && Contents() == old(Contents())[id := Pos(lat, lng)]
      ensures fresh(driverIndex.Values - old(driverIndex.Values))
    {
      if id in driverIndex {
        var _ := Remove(id);
      }
      var cellId := LatLngToCell(Pos(lat, lng));
      var record := new HexDriverRecord(id, Pos(lat, lng), cellId);
      File(record);
      ok := true;
    }

    /** Adds a record of a driver that is in no bucket. */
    method File(record: HexDriverRecord)
      requires Valid() && record.id !in driverIndex && record.cellId == LatLngToCell(record.pos)
      modifies this`hexBuckets, this`driverIndex
      ensures Valid() && driverIndex == old(driverIndex)[record.id := record]
    {
      Enlist(record);
      Refile(record);
    }

    method Enlist(record: HexDriverRecord)
      requires Valid() && record.id !in driverIndex
      modifies this`driverIndex
      ensures ValidBut(record) && driverIndex == old(driverIndex)[record.id := record]
    {
      driverIndex := driverIndex[record.id := record];
      forall id | id in driverIndex && id != record.id ensures Filed(id) {
        assert old(Filed(id));
      }
      forall cellId ensures BucketOk(cellId) && record !in Bucket(cellId) {
        assert old(BucketOk(cellId));
      }
    }

    method Remove(id: Id) returns (ok: bool)
      requires Valid()
      modifies this`hexBuckets, this`driverIndex
      ensures Valid() && ok == (id in old(driverIndex)) && driverIndex == old(driverIndex) - {id}
    {
      if id !in driverIndex {
        return false;
      }
      var record := driverIndex[id];
      BucketIds(record.cellId);
      Erase(record.cellId, id);
      driverIndex := driverIndex - {id};
      assert old(Filed(id)) && old(BucketOk(record.cellId));
      forall d | d in driverIndex ensures Filed(d) {
        assert old(Filed(d));
      }
      forall cellId ensures BucketOk(cellId) {
        assert old(BucketOk(cellId));
      }
      return true;
    }

    /** In the same cell the record is moved in place; otherwise it changes buckets. */
    method Update(id: Id, lat: real, lng: real) returns (ok: bool)
      requires Valid()
      modifies this`hexBuckets, driverIndex.Values
      ensures Valid() && ok == (id in driverIndex) && driverIndex == old(driverIndex)
      ensures Contents() == if ok then old(Contents())[id := Pos(lat, lng)] else old(Contents())
    {
      if id !in driverIndex {
        return false;
      }
      var record := driverIndex[id];
      var newCellId := LatLngToCell(Pos(lat, lng));
      assert Filed(id);
      if newCellId == record.cellId {
        Shift(record, Pos(lat, lng));
      } else {
        Rebucket(record, Pos(lat, lng), newCellId);
      }
      return true;
    }

    lemma OnlyRecordOf(record: HexDriverRecord)
      requires forall id {:trigger Filed(id)} | id in driverIndex && id != record.id :: Filed(id)
      ensures forall d | d in driverIndex && d != record.id :: driverIndex[d] != record
    {
      assert forall d | d in driverIndex && d != record.id :: Filed(d);
    }

    method Shift(record: HexDriverRecord, pos: Pos)
      requires Valid() && record.id in driverIndex && driverIndex[record.id] == record
      requires record.cellId == LatLngToCell(pos)
      modifies record`pos
      ensures Valid() && Contents() == old(Contents())[record.id := pos]
    {
      OnlyRecordOf(record);
      record.pos := pos;
      forall d | d in driverIndex ensures Filed(d) {
        assert old(Filed(d));
      }
      forall cellId ensures BucketOk(cellId) {
        assert old(BucketOk(cellId));
      }
    }

    /** Everything is filed but one driver, whose record is in no bucket. */
    ghost predicate ValidBut(record: HexDriverRecord)
      reads this, driverIndex.Values
    {
      && record.id in driverIndex && driverIndex[record.id] == record
      && (forall id {:trigger Filed(id)} | id in driverIndex && id != record.id :: Filed(id))
      && (forall cellId {:trigger BucketOk(cellId)} :: BucketOk(cellId) && record !in Bucket(cellId))
    }

    method Rebucket(record: HexDriverRecord, pos: Pos, newCellId: int)
      requires Valid() && record.id in driverIndex && driverIndex[record.id] == record
      requires newCellId == LatLngToCell(pos) && newCellId != record.cellId
      modifies this`hexBuckets, record
      ensures Valid() && Contents() == old(Contents())[record.id := pos]
    {
      Unfile(record);
      Readdress(record, pos, newCellId);
      Refile(record);
    }

    method Unfile(record: HexDriverRecord)
      requires Valid() && record.id in driverIndex && driverIndex[record.id] == record
      modifies this`hexBuckets
      ensures ValidBut(record)
    {
      BucketIds(record.cellId);
      Erase(record.cellId, record.id);
      forall d | d in driverIndex && d != record.id ensures Filed(d) {
        assert old(Filed(d));
      }
      forall cellId ensures BucketOk(cellId) && record !in Bucket(cellId) {
        assert old(BucketOk(cellId));
      }
    }

    method Readdress(record: HexDriverRecord, pos: Pos, newCellId: int)
      requires ValidBut(record)
      modifies record
      ensures ValidBut(record) && record.pos == pos && record.cellId == newCellId
      ensures Contents() == old(Contents())[record.id := pos]
    {
      OnlyRecordOf(record);
      record.pos, record.cellId := pos, newCellId;
      forall d | d in driverIndex && d != record.id ensures Filed(d) {
        assert old(Filed(d));
      }
      forall cellId ensures BucketOk(cellId) && record !in Bucket(cellId) {
        assert old(BucketOk(cellId));
      }
    }

    method Refile(record: HexDriverRecord)
      requires ValidBut(record) && record.cellId == LatLngToCell(record.pos)
      modifies this`hexBuckets
      ensures Valid()
    {
      assert BucketOk(record.cellId);
      hexBuckets := hexBuckets[record.cellId := Bucket(record.cellId) + [record]];
      forall d | d in driverIndex ensures Filed(d) {
        assert d != record.id ==> old(Filed(d));
      }
      forall cellId ensures BucketOk(cellId) {
        assert old(BucketOk(cellId));
      }
    }

    // ---- Nearest neighbours, ring by ring ----

    ghost function CellIds(): map<Id, int>
      reads this`driverIndex, driverIndex.Values
    {
      map id | id in driverIndex :: driverIndex[id].cellId
    }

    /** Inspects the drivers of one cell. */
    method InspectBucket(q: Query, cellId: int, candidates: seq<Candidate>, ghost seen: set<Id>)
      returns (r: seq<Candidate>)
      requires Valid() && 0 < q.k && |candidates| <= q.k && BestOf(seen, Contents(), q, candidates)
      requires seen !! FiledUnder(CellIds(), {cellId})
      ensures |r| <= q.k && BestOf(seen + FiledUnder(CellIds(), {cellId}), Contents(), q, r)
    {
      var bucket := Bucket(cellId);
      assert BucketOk(cellId);
      BucketIds(cellId);
      r := candidates;
      for i := 0 to |bucket|
        invariant |r| <= q.k && BestOf(seen + RecordIds(bucket[..i]), Contents(), q, r)
      {
        var driver := bucket[i];
        InCell(cellId, i);
        assert RecordIds(bucket[..i + 1]) == RecordIds(bucket[..i]) + {driver.id} by {
          assert bucket[..i + 1] == bucket[..i] + [driver];
        }
        assert seen + RecordIds(bucket[..i + 1]) == seen + RecordIds(bucket[..i]) + {driver.id};
        r := CppConsider(Contents(), seen + RecordIds(bucket[..i]), q, r, driver.id, driver.pos.lat, driver.pos.lng);
      }
      assert bucket[..|bucket|] == bucket;
      BucketIsCell(cellId);
    }

    ghost function RecordIds(records: seq<HexDriverRecord>): set<Id> {
      set r | r in records :: r.id
    }

    lemma InCell(cellId: int, i: nat)
      requires Valid() && i < |Bucket(cellId)|
      ensures Bucket(cellId)[i].id in FiledUnder(CellIds(), {cellId})
      ensures Bucket(cellId)[i].id !in RecordIds(Bucket(cellId)[..i])
      ensures Bucket(cellId)[i].id in driverIndex && driverIndex[Bucket(cellId)[i].id] == Bucket(cellId)[i]
    {
      assert BucketOk(cellId);
      BucketIds(cellId);
    }

    lemma BucketIsCell(cellId: int)
      requires Valid()
      ensures RecordIds(Bucket(cellId)) == FiledUnder(CellIds(), {cellId})
    {
      assert BucketOk(cellId);
      forall id | id in FiledUnder(CellIds(), {cellId}) ensures id in RecordIds(Bucket(cellId)) {
        assert Filed(id);
      }
    }

    /** Inspects the cells of one ring. */
    method InspectRing(q: Query, ringCells: seq<int>, candidates: seq<Candidate>, ghost seen: set<Id>)
      returns (r: seq<Candidate>)
      requires Valid() && 0 < q.k && |candidates| <= q.k && BestOf(seen, Contents(), q, candidates)
      requires seen !! FiledUnder(CellIds(), Elements(ringCells)) && forall i, j | 0 <= i < j < |ringCells| ::
          ringCells[i] != ringCells[j]
      ensures |r| <= q.k && BestOf(seen + FiledUnder(CellIds(), Elements(ringCells)), Contents(), q, r)
    {
      r := candidates;
      assert seen + FiledUnder(CellIds(), Elements(ringCells[..0])) == seen;
      for i := 0 to |ringCells|
        invariant |r| <= q.k && BestOf(seen + FiledUnder(CellIds(), Elements(ringCells[..i])), Contents(), q, r)
      {
        NextCell(CellIds(), ringCells, i, seen);
        r := InspectBucket(q, ringCells[i], r, seen + FiledUnder(CellIds(), Elements(ringCells[..i])));
      }
      assert ringCells[..|ringCells|] == ringCells;
    }

    static method RingIds(c: Cell, ring: nat) returns (ringCells: seq<int>)
      ensures ringCells == PackAll(RingCells(c, ring))
    {
      if ring == 0 {
        return [PackCellId(c)];
      }
      ringCells := WalkRing(c, ring);
    }

    /** The search: rings around the query's cell, up to the first one that a full answer seems to beat.
        The answer is the best over the rings before that one, and exact if and only if every other driver
        in radius has k drivers of those rings at most as far. Who is left out although the search could have
        reached its ring has k visited drivers in radius within the ring's inner edge. */
    method KNearestNeighbours(q: Query) returns (r: seq<Candidate>)
      requires Valid() && 0.0 < hexWidth && MaxRings(q.radius, hexWidth) < TWO31 - 1
      ensures q.k <= 0 || q.radius <= 0.0 ==> r == []
      ensures 0 < q.k && 0.0 < q.radius ==> |r| <= q.k && BestOf(Visited(q), Contents(), q, r)
      ensures 0 < q.k && 0.0 < q.radius ==> (IsKnn(Contents(), q, r) <==> RestBeaten(Contents(), Visited(q), q))
      ensures 0 < q.k && 0.0 < q.radius ==>
          forall id, n: nat {:trigger OnRing(id, q, n)} | id !in Visited(q) && OnRing(id, q, n)
              && n <= MaxRings(q.radius, hexWidth) :: 1 <= n && Enough(q, Visited(q), (n as real - 0.5) * hexWidth)
    {
      if q.k <= 0 || q.radius <= 0.0 {
        return [];
      }
      var maxRings := MaxRings(q.radius, hexWidth);
      MaxRingsBounds(q.radius, hexWidth);
      r := Search(q, maxRings);
      SearchExactIff(Contents(), CellIds(), Centre(q.from), hexWidth, q, maxRings, r);
      LeftOut(q, maxRings);
    }

    /** The driver's cell lies on this ring around the query's. */
    ghost predicate OnRing(id: Id, q: Query, n: nat)
      reads this, driverIndex.Values
    {
      id in driverIndex && exists x :: PackCellId(x) == driverIndex[id].cellId && HexDistance(Centre(q.from), x) == n
    }

    /** Of the drivers seen, k are in radius and at most this far. */
    ghost predicate Enough(q: Query, seen: set<Id>, edge: real)
      reads this, driverIndex.Values
    {
      q.k <= |Near(Contents(), seen, q, edge)|
    }

    lemma LeftOut(q: Query, maxRings: int)
      requires 0 < q.k && 0.0 < hexWidth && -1 <= maxRings
      ensures forall id, n: nat {:trigger OnRing(id, q, n)} | id !in SeenUpTo(q, maxRings) && OnRing(id, q, n)
                  && n <= maxRings :: 1 <= n && Enough(q, SeenUpTo(q, maxRings), (n as real - 0.5) * hexWidth)
    {
      forall id, n: nat | id !in SeenUpTo(q, maxRings) && OnRing(id, q, n) && n <= maxRings
        ensures 1 <= n && Enough(q, SeenUpTo(q, maxRings), (n as real - 0.5) * hexWidth)
      {
        var x :| PackCellId(x) == driverIndex[id].cellId && HexDistance(Centre(q.from), x) == n;
        LeftOutOne(q, maxRings, id, x, n, (n as real - 0.5) * hexWidth);
      }
    }

    lemma LeftOutOne(q: Query, maxRings: int, id: Id, x: Cell, n: nat, edge: real)
      requires 0 < q.k && 0.0 < hexWidth && -1 <= maxRings && id in driverIndex && id !in SeenUpTo(q, maxRings)
      requires PackCellId(x) == driverIndex[id].cellId && HexDistance(Centre(q.from), x) == n && n <= maxRings
      requires edge == (n as real - 0.5) * hexWidth
      ensures 1 <= n && Enough(q, SeenUpTo(q, maxRings), edge)
    {
      LeftOutForNearer(Contents(), CellIds(), Centre(q.from), hexWidth, q, maxRings, id, x, n, edge);
    }

    /** The drivers of the rings before the first one not visited. */
    ghost function Visited(q: Query): set<Id>
      requires 0.0 < hexWidth
      reads this, driverIndex.Values
    {
      SeenUpTo(q, MaxRings(q.radius, hexWidth))
    }

    ghost function SeenUpTo(q: Query, maxRings: int): set<Id>
      reads this, driverIndex.Values
    {
      WithinRings(CellIds(), Centre(q.from), StopAt(q, maxRings, 0))
    }

    ghost function StopAt(q: Query, maxRings: int, from: nat): nat
      reads this, driverIndex.Values
    {
      StopRing(Contents(), CellIds(), Centre(q.from), hexWidth, q, maxRings, from)
    }

    method Search(q: Query, maxRings: int) returns (r: seq<Candidate>)
      requires Valid() && -1 <= maxRings < TWO31 - 1 && 0 < q.k
      ensures |r| <= q.k
      ensures BestOf(WithinRings(CellIds(), Centre(q.from), StopAt(q, maxRings, 0)), Contents(), q, r)
    {
      r := [];
      var stop := false;
      var ring := 0;
      while ring <= maxRings && !stop
        invariant Reached(q, maxRings, ring, r) && (stop ==> ring == StopAt(q, maxRings, 0))
        decreases maxRings + 1 - ring, !stop
      {
        stop, r := VisitUnlessBeaten(q, maxRings, ring, r);
        ring := if stop then ring else ring + 1;
      }
    }

    method VisitUnlessBeaten(q: Query, maxRings: int, ring: nat, candidates: seq<Candidate>)
      returns (stop: bool, r: seq<Candidate>)
      requires Valid() && 0 < q.k && ring <= maxRings < TWO31 - 1 && Reached(q, maxRings, ring, candidates)
      ensures if stop then r == candidates && ring == StopAt(q, maxRings, 0) else Reached(q, maxRings, ring + 1, r)
    {
      r := candidates;
      stop := MayStop(q, Centre(q.from), ring, r);
      GoesOn(Contents(), CellIds(), Centre(q.from), hexWidth, q, maxRings, ring);
      if !stop {
        r := VisitRing(q, Centre(q.from), ring, r);
      }
    }

    /** The answer over the rings before this one, none of which was cut off. */
    ghost predicate Reached(q: Query, maxRings: int, ring: int, r: seq<Candidate>)
      reads this, driverIndex.Values
    {
      && 0 <= ring <= maxRings + 1 && |r| <= q.k
      && BestOf(WithinRings(CellIds(), Centre(q.from), ring), Contents(), q, r)
      && StopAt(q, maxRings, ring) == StopAt(q, maxRings, 0)
    }

    /** Whether the list is full and its last entry is no further than the ring is expected to be. */
    method MayStop(q: Query, c: Cell, ring: nat, r: seq<Candidate>) returns (stop: bool)
      requires Valid() && 0 < q.k && |r| <= q.k && BestOf(WithinRings(CellIds(), c, ring), Contents(), q, r)
      ensures stop == CutsOff(Contents(), CellIds(), c, hexWidth, q, ring)
    {
      BeatenIffEnoughNear(Contents(), WithinRings(CellIds(), c, ring), q, r, MinRingDist(hexWidth, ring));
      stop := |r| >= q.k && MinRingDist(hexWidth, ring) >= r[|r| - 1].distance;
    }

    method VisitRing(q: Query, c: Cell, ring: nat, candidates: seq<Candidate>) returns (r: seq<Candidate>)
      requires Valid() && 0 < q.k && |candidates| <= q.k && ring < TWO31 - 1
      requires BestOf(WithinRings(CellIds(), c, ring), Contents(), q, candidates)
      ensures |r| <= q.k && BestOf(WithinRings(CellIds(), c, ring + 1), Contents(), q, r)
    {
      var ringCells := RingIds(c, ring);
      NextRing(CellIds(), c, ring);
      r := InspectRing(q, ringCells, candidates, WithinRings(CellIds(), c, ring));
    }

    function Centre(from: Pos): Cell {
      UnpackCellId(LatLngToCell(from))
    }
  }

  ghost function FiledUnder(cells: map<Id, int>, cellIds: set<int>): set<Id> {
    set id | id in cells && cells[id] in cellIds
  }

  ghost function Elements(xs: seq<int>): set<int> {
    set x | x in xs
  }

  lemma NextCell(cells: map<Id, int>, ringCells: seq<int>, i: nat, seen: set<Id>)
    requires i < |ringCells| && seen !! FiledUnder(cells, Elements(ringCells))
    requires forall a, b | 0 <= a < b < |ringCells| :: ringCells[a] != ringCells[b]
    ensures
      var before := seen + FiledUnder(cells, Elements(ringCells[..i]));
      && before !! FiledUnder(cells, {ringCells[i]})
      && seen + FiledUnder(cells, Elements(ringCells[..i + 1])) == before + FiledUnder(cells, {ringCells[i]})
  {
    assert ringCells[..i + 1] == ringCells[..i] + [ringCells[i]];
    assert Elements(ringCells[..i + 1]) == Elements(ringCells[..i]) + {ringCells[i]};
  }

  /** A ring has different packed ids, none of which an earlier ring had: no driver is met twice. */
  lemma NextRing(cells: map<Id, int>, c: Cell, n: nat)
    requires n < TWO31 - 1
    ensures
      var ids := PackAll(RingCells(c, n));
      && (forall i, j | 0 <= i < j < |ids| :: ids[i] != ids[j])
      && WithinRings(cells, c, n) !! FiledUnder(cells, Elements(ids))
      && WithinRings(cells, c, n + 1) == WithinRings(cells, c, n) + FiledUnder(cells, Elements(ids))
  {
    var ring, ids := RingCells(c, n), PackAll(RingCells(c, n));
    RingMembers(c, n);
    forall i, j | 0 <= i < j < |ids| ensures ids[i] != ids[j] {
      assert ring[i] in ring && ring[j] in ring;
      if ids[i] == ids[j] {
        PackedBallDistinct(c, n, ring[i], ring[j]);
      }
    }
    forall id | id in cells && cells[id] in ids
      ensures exists x :: PackCellId(x) == cells[id] && HexDistance(c, x) == n
    {
      var i :| 0 <= i < |ids| && ids[i] == cells[id];
      assert ring[i] in ring;
    }
    forall id, x | id in cells && PackCellId(x) == cells[id] && HexDistance(c, x) == n ensures cells[id] in ids {
      var i :| 0 <= i < |ring| && ring[i] == x;
      assert ids[i] == cells[id];
    }
    forall id | id in WithinRings(cells, c, n) && cells[id] in ids ensures false {
      var x :| PackCellId(x) == cells[id] && HexDistance(c, x) < n;
      var y :| PackCellId(y) == cells[id] && HexDistance(c, y) == n;
      PackedBallDistinct(c, n, x, y);
    }
  }

  lemma RingMembers(c: Cell, n: nat)
    ensures forall x :: x in RingCells(c, n) <==> HexDistance(c, x) == n
    ensures forall i, j | 0 <= i < j < |RingCells(c, n)| :: RingCells(c, n)[i] != RingCells(c, n)[j]
  {
    if n > 0 {
      RingWalkExact(c, n);
    } else {
      forall x ensures HexDistance(c, x) == 0 <==> c == x {
        HexDistanceIsMetric(c, x, c);
      }
    }
  }
}
