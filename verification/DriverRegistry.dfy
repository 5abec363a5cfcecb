/** The registry itself: driver records changed in place, a quadtree as search index, and a mirror that is
    told about every change. Each method does to the registry's value what RegistryModel says. */
module DriverRegistry {
  import opened Geometry
  import opened Candidates
  import opened RegistryModel
  import RegistryRuns
  import QuadTree

  class DriverRecord {
    const id: Id
    var pos: Pos
    var status: Status
    var lockToken: Option<Lock>
    var lastSeen: int

    constructor (id: Id, pos: Pos, status: Status, lastSeen: int)
      ensures this.id == id && Value() == Driver(pos, status, None, lastSeen)
    {
      this.id, this.pos, this.status, this.lockToken, this.lastSeen := id, pos, status, None, lastSeen;
    }

    ghost function Value(): Driver
      reads this
    {
      Driver(pos, status, lockToken, lastSeen)
    }
  }

  class DriverRegistry {
    const spatialIndex: QuadTree.QuadTree
    var drivers: map<Id, DriverRecord>
    var order: seq<Id>                  // the key order of `drivers`
    var mirrored: seq<MirrorCommand>    // what the mirror was told

    ghost predicate Valid()
      reads this, spatialIndex, spatialIndex.nodes, spatialIndex.at.Values, drivers.Values
    {
      spatialIndex.Valid() && forall id | id in drivers :: drivers[id].id == id
    }

    /** Nothing but registration changes this. */
    ghost predicate Ordered()
      reads this`order, this`drivers
    {
      forall id :: id in order <==> id in drivers
    }

    ghost function Records(): map<Id, Driver>
      reads this`drivers, drivers.Values
    {
      map id | id in drivers :: drivers[id].Value()
    }

    ghost function View(): Registry
      reads this, spatialIndex, spatialIndex.driverMap.Values, drivers.Values
    {
      Registry(spatialIndex.root.bounds, Records(), spatialIndex.Contents(), mirrored)
    }

    /** The tree has no record among its objects. */
    twostate lemma UntouchedRecords()
      requires drivers == old(drivers) && forall r: DriverRecord | r in drivers.Values :: unchanged(r)
      ensures Records() == old(Records())
    {
    }

    constructor (spatialIndex: QuadTree.QuadTree)
      requires spatialIndex.Valid()
      ensures Valid() && Ordered() && this.spatialIndex == spatialIndex
      ensures View() == Registry(spatialIndex.root.bounds, map[], spatialIndex.Contents(), [])
    {
      this.spatialIndex, drivers, order, mirrored := spatialIndex, map[], [], [];
    }

    // ---- The search index and its mirror ----

    method IdxInsert(id: Id, pos: Pos) returns (ok: bool)
      requires Valid()
      modifies this`mirrored, spatialIndex, spatialIndex.nodes
      ensures fresh(spatialIndex.Entry(id) - old(spatialIndex.Entry(id)))
      ensures Valid() && fresh(spatialIndex.nodes - old(spatialIndex.nodes))
      ensures fresh(spatialIndex.at.Values - old(spatialIndex.at.Values))
      ensures (View(), ok) == RegistryModel.IdxInsert(old(View()), id, pos)
    {
      ok := PutEntry(id, pos);
      if ok {
        Tell(InsertCmd(id, pos));
      }
    }

    method PutEntry(id: Id, pos: Pos) returns (ok: bool)
      requires Valid()
      modifies spatialIndex, spatialIndex.nodes
      ensures fresh(spatialIndex.Entry(id) - old(spatialIndex.Entry(id)))
      ensures Valid() && fresh(spatialIndex.nodes - old(spatialIndex.nodes))
      ensures fresh(spatialIndex.at.Values - old(spatialIndex.at.Values))
      ensures ok == InBox(old(View()).region, pos)
      ensures View() == old(View()).(index := if ok then old(View()).index[id := pos] else old(View()).index - {id})
    {
      ok := spatialIndex.Insert(id, pos.lat, pos.lng);
      UntouchedRecords();
    }

    method IdxUpdate(id: Id, pos: Pos) returns (ok: bool)
      requires Valid()
      modifies this`mirrored, spatialIndex, spatialIndex.nodes, spatialIndex.Entry(id)
      ensures Valid() && fresh(spatialIndex.nodes - old(spatialIndex.nodes))
      ensures fresh(spatialIndex.at.Values - old(spatialIndex.at.Values))
      ensures (View(), ok) == RegistryModel.IdxUpdate(old(View()), id, pos)
    {
      ok := MoveEntry(id, pos);
      if ok {
        Tell(UpdateCmd(id, pos));
      }
    }

    method Tell(command: MirrorCommand)
      requires Valid()
      modifies this`mirrored
      ensures Valid() && View() == old(View()).(sent := old(View()).sent + [command])
    {
      mirrored := mirrored + [command];
    }

    method MoveEntry(id: Id, pos: Pos) returns (ok: bool)
      requires Valid()
      modifies spatialIndex, spatialIndex.nodes, spatialIndex.Entry(id)
      ensures Valid() && fresh(spatialIndex.nodes - old(spatialIndex.nodes))
      ensures fresh(spatialIndex.at.Values - old(spatialIndex.at.Values))
      ensures ok == (id in old(View()).index && InBox(old(View()).region, pos))
      ensures View() == old(View()).(index := if ok then old(View()).index[id := pos] else old(View()).index - {id})
    {
      ok := spatialIndex.Update(id, pos.lat, pos.lng);
      UntouchedRecords();
    }

    method IdxRemove(id: Id)
      requires Valid()
      modifies this`mirrored, spatialIndex, spatialIndex.nodes
      ensures Valid() && spatialIndex.nodes <= old(spatialIndex.nodes)
      ensures spatialIndex.at.Values <= old(spatialIndex.at.Values)
      ensures View() == RegistryModel.IdxRemove(old(View()), id)
    {
      var _ := spatialIndex.Remove(id);
      Tell(RemoveCmd(id));
    }

    // ---- Records ----

    /** Writing one record changes one entry of the registry's value, and nothing of the tree. */
    twostate lemma WroteRecord(id: Id)
      requires old(Valid()) && drivers == old(drivers) && id in drivers && mirrored == old(mirrored)
      requires unchanged(spatialIndex) && unchanged(spatialIndex.nodes) && unchanged(old(spatialIndex.driverMap).Values)
      requires forall d | d in drivers && d != id :: unchanged(drivers[d])
      ensures Valid() && View() == old(View()).(drivers := old(View()).drivers[id := drivers[id].Value()])
    {
    }

    method CleanExpiredLockIfAny(driver: DriverRecord, now: int)
      requires Valid() && driver.id in drivers && drivers[driver.id] == driver
      modifies driver`lockToken, this`mirrored, spatialIndex, spatialIndex.nodes
      ensures fresh(spatialIndex.Entry(driver.id) - old(spatialIndex.Entry(driver.id)))
      ensures Valid() && fresh(spatialIndex.nodes - old(spatialIndex.nodes))
      ensures fresh(spatialIndex.at.Values - old(spatialIndex.at.Values))
      ensures View() == CleanExpiredLock(old(View()), driver.id, now)
    {
      if driver.lockToken.Some? && driver.lockToken.value.expiresAt <= now {
        Unlock(driver);
      }
    }

    method Unlock(driver: DriverRecord)
      requires Valid() && driver.id in drivers && drivers[driver.id] == driver
      modifies driver`lockToken, this`mirrored, spatialIndex, spatialIndex.nodes
      ensures fresh(spatialIndex.Entry(driver.id) - old(spatialIndex.Entry(driver.id)))
      ensures Valid() && fresh(spatialIndex.nodes - old(spatialIndex.nodes))
      ensures fresh(spatialIndex.at.Values - old(spatialIndex.at.Values))
      ensures
        var was := old(View());
        var unlocked := was.(drivers := was.drivers[driver.id := was.drivers[driver.id].(lock := None)]);
        View() ==
          if driver.status == Available then RegistryModel.IdxInsert(unlocked, driver.id, driver.pos).0 else unlocked
    {
      WriteLock(driver, None);
      if driver.status == Available {
        var _ := IdxInsert(driver.id, driver.pos);
      }
    }

    method WriteLock(driver: DriverRecord, lock: Option<Lock>)
      requires Valid() && driver.id in drivers && drivers[driver.id] == driver
      modifies driver`lockToken
      ensures Valid()
      ensures
        var was := old(View());
        View() == was.(drivers := was.drivers[driver.id := was.drivers[driver.id].(lock := lock)])
    {
      driver.lockToken := lock;
      WroteRecord(driver.id);
    }

    predicate IsWithinBounds(pos: Pos) {
      InBox(spatialIndex.root.bounds, pos)
    }

    // ---- The operations ----

    method RegisterDriver(id: Id, pos: Pos, status: Status, now: int) returns (record: DriverRecord)
      requires Valid()
      modifies this, spatialIndex, spatialIndex.nodes, drivers.Values
      ensures Valid() && fresh(spatialIndex.nodes - old(spatialIndex.nodes))
      ensures fresh(spatialIndex.at.Values - old(spatialIndex.at.Values))
      ensures View() == RegistryModel.RegisterDriver(old(View()), id, pos, status, now)
      ensures RegistryRuns.Conforms(old(View()), View(), RegistryRuns.Register(id, pos, status), now)
      ensures id in drivers && record == drivers[id] && (id !in old(drivers) ==> fresh(record))
      ensures (old(Ordered()) ==> Ordered())
    {
      RegistryRuns.OpConforms(View(), RegistryRuns.Register(id, pos, status), now);
      if id in drivers {
        record := Touch(id, now);
      } else {
        record := AddDriver(id, pos, if status == Available && !IsWithinBounds(pos) then Offline else status, now);
      }
    }

    method AddDriver(id: Id, pos: Pos, status: Status, now: int) returns (record: DriverRecord)
      requires Valid() && id !in drivers && (status == Available ==> InBox(spatialIndex.root.bounds, pos))
      modifies this, spatialIndex, spatialIndex.nodes
      ensures Valid() && fresh(spatialIndex.nodes - old(spatialIndex.nodes))
      ensures fresh(spatialIndex.at.Values - old(spatialIndex.at.Values))
      ensures fresh(record) && drivers == old(drivers)[id := record] && (old(Ordered()) ==> Ordered())
      ensures
        var added := old(View()).(drivers := old(View()).drivers[id := Driver(pos, status, None, now)]);
        View() == if status == Available then RegistryModel.IdxInsert(added, id, pos).0 else added
    {
      record := new DriverRecord(id, pos, status, now);
      Enrol(record);
    }

    method Touch(id: Id, now: int) returns (record: DriverRecord)
      requires Valid() && id in drivers
      modifies drivers.Values
      ensures Valid() && record == drivers[id]
      ensures View() == old(View()).(drivers := old(View()).drivers[id := old(View()).drivers[id].(lastSeen := now)])
    {
      record := drivers[id];
      record.lastSeen := now;
      WroteRecord(id);
    }

    method Enrol(record: DriverRecord)
      requires Valid() && record.id !in drivers
      modifies this, spatialIndex, spatialIndex.nodes
      ensures Valid() && fresh(spatialIndex.nodes - old(spatialIndex.nodes))
      ensures fresh(spatialIndex.at.Values - old(spatialIndex.at.Values))
      ensures drivers == old(drivers)[record.id := record] && (old(Ordered()) ==> Ordered())
      ensures
        var added := old(View()).(drivers := old(View()).drivers[record.id := old(record.Value())]);
        View() == if old(record.status) == Available then RegistryModel.IdxInsert(added, record.id, old(record.pos)).0
          else added
    {
      AddRecord(record);
      if record.status == Available {
        var _ := IdxInsert(record.id, record.pos);
      }
    }

    method AddRecord(record: DriverRecord)
      requires Valid() && record.id !in drivers
      modifies this`drivers, this`order
      ensures Valid() && drivers == old(drivers)[record.id := record] && (old(Ordered()) ==> Ordered())
      ensures View() == old(View()).(drivers := old(View()).drivers[record.id := record.Value()])
    {
      drivers, order := drivers[record.id := record], order + [record.id];
    }

    method UpdateLocation(id: Id, pos: Pos, now: int) returns (ok: bool)
      requires Valid()
      modifies this`mirrored, spatialIndex, spatialIndex.nodes, spatialIndex.Entry(id), drivers.Values
      ensures Valid() && fresh(spatialIndex.nodes - old(spatialIndex.nodes))
      ensures fresh(spatialIndex.at.Values - old(spatialIndex.at.Values))
      ensures (View(), ok) == RegistryModel.UpdateLocation(old(View()), id, pos, now)
      ensures RegistryRuns.Conforms(old(View()), View(), RegistryRuns.Locate(id, pos), now)
      ensures ok ==> id in drivers && drivers[id].pos == pos && drivers[id].lastSeen == now && FoundAt(id, pos)
    {
      RegistryRuns.OpConforms(View(), RegistryRuns.Locate(id, pos), now);
      ok := false;
      if id in drivers && OnGlobe(pos) && IsWithinBounds(pos) {
        ok := Relocate(drivers[id], pos, now);
      }
    }

    /** Searches find the driver here, if it is free. */
    ghost predicate FoundAt(id: Id, pos: Pos)
      requires id in drivers
      reads this, spatialIndex, spatialIndex.driverMap.Values, drivers.Values
    {
      drivers[id].status == Available && drivers[id].lockToken == None ==>
        id in spatialIndex.Contents() && spatialIndex.Contents()[id] == pos
    }

    method Relocate(driver: DriverRecord, pos: Pos, now: int) returns (ok: bool)
      requires Valid() && driver.id in drivers && drivers[driver.id] == driver && IsWithinBounds(pos)
      modifies this`mirrored, spatialIndex, spatialIndex.nodes, spatialIndex.Entry(driver.id), driver
      ensures Valid() && fresh(spatialIndex.nodes - old(spatialIndex.nodes))
      ensures fresh(spatialIndex.at.Values - old(spatialIndex.at.Values))
      ensures
        var was := old(View());
        (View(), ok) == RegistryModel.Follow(
          was.(drivers := was.drivers[driver.id := was.drivers[driver.id].(pos := pos, lastSeen := now)]), driver.id,
          pos, now)
      ensures driver.pos == pos && driver.lastSeen == now && FoundAt(driver.id, pos)
    {
      Locate(driver, pos, now);
      ok := Follow(driver, pos, now);
    }

    method Follow(driver: DriverRecord, pos: Pos, now: int) returns (ok: bool)
      requires Valid() && driver.id in drivers && drivers[driver.id] == driver
      modifies this`mirrored, spatialIndex, spatialIndex.nodes, spatialIndex.Entry(driver.id), driver`lockToken
      ensures Valid() && fresh(spatialIndex.nodes - old(spatialIndex.nodes))
      ensures fresh(spatialIndex.at.Values - old(spatialIndex.at.Values))
      ensures (View(), ok) == RegistryModel.Follow(old(View()), driver.id, pos, now)
      ensures InBox(spatialIndex.root.bounds, pos) ==> FoundAt(driver.id, pos)
    {
      CleanExpiredLockIfAny(driver, now);
      ghost var clean := View();
      ok := Reindex(driver, pos);
    }

    method Locate(driver: DriverRecord, pos: Pos, now: int)
      requires Valid() && driver.id in drivers && drivers[driver.id] == driver
      modifies driver`pos, driver`lastSeen
      ensures Valid()
      ensures
        var was := old(View());
        View() == was.(drivers := was.drivers[driver.id := was.drivers[driver.id].(pos := pos, lastSeen := now)])
    {
      driver.pos, driver.lastSeen := pos, now;
      WroteRecord(driver.id);
    }

    /** Moves the search entry of a driver that should have one, or restores it if it was missing. */
    method Reindex(driver: DriverRecord, pos: Pos) returns (ok: bool)
      requires Valid() && driver.id in drivers && drivers[driver.id] == driver
      modifies this`mirrored, spatialIndex, spatialIndex.nodes, spatialIndex.Entry(driver.id)
      ensures Valid() && fresh(spatialIndex.nodes - old(spatialIndex.nodes))
      ensures fresh(spatialIndex.at.Values - old(spatialIndex.at.Values))
      ensures
        (View(), ok) ==
        if driver.status == Available && driver.lockToken == None then
          var (updated, moved) := RegistryModel.IdxUpdate(old(View()), driver.id, pos);
          if moved then (updated, true) else RegistryModel.IdxInsert(updated, driver.id, pos)
        else (old(View()), true)
      ensures InBox(spatialIndex.root.bounds, pos) ==> FoundAt(driver.id, pos)
    {
      ok := true;
      if driver.status == Available && driver.lockToken == None {
        ok := IdxUpdate(driver.id, pos);
        if !ok {
          ok := IdxInsert(driver.id, pos);
        }
      }
    }

    method SetStatus(id: Id, newStatus: Status, now: int) returns (ok: bool)
      requires Valid()
      modifies this`mirrored, spatialIndex, spatialIndex.nodes, drivers.Values
      ensures Valid() && fresh(spatialIndex.nodes - old(spatialIndex.nodes))
      ensures fresh(spatialIndex.at.Values - old(spatialIndex.at.Values))
      ensures (View(), ok) == RegistryModel.SetStatus(old(View()), id, newStatus, now)
      ensures RegistryRuns.Conforms(old(View()), View(), RegistryRuns.SetTo(id, newStatus), now)
    {
      RegistryRuns.OpConforms(View(), RegistryRuns.SetTo(id, newStatus), now);
      if id !in drivers {
        return false;
      }
      var driver := drivers[id];
      var oldStatus := driver.status;
      driver.lastSeen := now;
      ok := true;
      if newStatus != Available {
        driver.status, driver.lockToken := newStatus, None;
        WroteRecord(id);
        if oldStatus == Available {
          IdxRemove(id);
        }
      } else if driver.lockToken != None {
        driver.status := Available;
        WroteRecord(id);
      } else if !IsWithinBounds(driver.pos) {
        driver.status := Offline;
        WroteRecord(id);
        ok := false;
      } else {
        driver.status := Available;
        WroteRecord(id);
        ok := IdxInsert(id, driver.pos);
      }
    }

    method AcquireLock(driverId: Id, requestId: Id, ttlMs: int, now: int) returns (ok: bool)
      requires Valid()
      modifies this`mirrored, spatialIndex, spatialIndex.nodes, drivers.Values
      ensures Valid() && fresh(spatialIndex.nodes - old(spatialIndex.nodes))
      ensures fresh(spatialIndex.at.Values - old(spatialIndex.at.Values))
      ensures (View(), ok) == RegistryModel.AcquireLock(old(View()), driverId, requestId, ttlMs, now)
      ensures RegistryRuns.Conforms(old(View()), View(), RegistryRuns.Acquire(driverId, requestId, ttlMs), now)
    {
      RegistryRuns.OpConforms(View(), RegistryRuns.Acquire(driverId, requestId, ttlMs), now);
      if driverId !in drivers || drivers[driverId].status != Available {
        return false;
      }
      var driver := drivers[driverId];
      CleanExpiredLockIfAny(driver, now);
      ok := driver.lockToken == None;
      if ok {
        Lease(driver, Lock(requestId, now + ttlMs));
      }
    }

    method Lease(driver: DriverRecord, lock: Lock)
      requires Valid() && driver.id in drivers && drivers[driver.id] == driver
      modifies driver`lockToken, this`mirrored, spatialIndex, spatialIndex.nodes
      ensures Valid() && fresh(spatialIndex.nodes - old(spatialIndex.nodes))
      ensures fresh(spatialIndex.at.Values - old(spatialIndex.at.Values))
      ensures
        var was := old(View());
        View() == RegistryModel.IdxRemove(was.(drivers :=
          was.drivers[driver.id := was.drivers[driver.id].(lock := Some(lock))]), driver.id)
    {
      WriteLock(driver, Some(lock));
      IdxRemove(driver.id);
    }

    method ReleaseLock(driverId: Id, requestId: Id) returns (ok: bool)
      requires Valid()
      modifies this`mirrored, spatialIndex, spatialIndex.nodes, drivers.Values
      ensures Valid() && fresh(spatialIndex.nodes - old(spatialIndex.nodes))
      ensures fresh(spatialIndex.at.Values - old(spatialIndex.at.Values))
      ensures (View(), ok) == RegistryModel.ReleaseLock(old(View()), driverId, requestId)
      ensures RegistryRuns.Conforms(old(View()), View(), RegistryRuns.Release(driverId, requestId), 0)
    {
      RegistryRuns.OpConforms(View(), RegistryRuns.Release(driverId, requestId), 0);
      if driverId !in drivers {
        return false;
      }
      var driver := drivers[driverId];
      if driver.lockToken.Some? && driver.lockToken.value.requestId != requestId {
        return false;
      }
      Unlock(driver);
      ok := true;
    }

    method CommitTrip(driverId: Id, requestId: Id, now: int) returns (ok: bool)
      requires Valid()
      modifies this`mirrored, spatialIndex, spatialIndex.nodes, drivers.Values
      ensures Valid() && fresh(spatialIndex.nodes - old(spatialIndex.nodes))
      ensures fresh(spatialIndex.at.Values - old(spatialIndex.at.Values))
      ensures (View(), ok) == RegistryModel.CommitTrip(old(View()), driverId, requestId, now)
      ensures RegistryRuns.Conforms(old(View()), View(), RegistryRuns.Commit(driverId, requestId), now)
    {
      RegistryRuns.OpConforms(View(), RegistryRuns.Commit(driverId, requestId), now);
      if driverId !in drivers {
        return false;
      }
      var driver := drivers[driverId];
      if driver.lockToken == None || driver.lockToken.value.requestId != requestId {
        return false;
      }
      if driver.lockToken.value.expiresAt <= now {
        var _ := ReleaseLock(driverId, requestId);
        return false;
      }
      driver.lockToken, driver.status := None, Busy;
      WroteRecord(driverId);
      return true;
    }

    method CompleteTrip(driverId: Id, now: int) returns (ok: bool)
      requires Valid()
      modifies this`mirrored, spatialIndex, spatialIndex.nodes, drivers.Values
      ensures Valid() && fresh(spatialIndex.nodes - old(spatialIndex.nodes))
      ensures fresh(spatialIndex.at.Values - old(spatialIndex.at.Values))
      ensures (View(), ok) == RegistryModel.CompleteTrip(old(View()), driverId, now)
      ensures RegistryRuns.Conforms(old(View()), View(), RegistryRuns.Complete(driverId), now)
    {
      RegistryRuns.OpConforms(View(), RegistryRuns.Complete(driverId), now);
      ok := SetStatus(driverId, Available, now);
    }

    method FindNearbyCandidates(q: Query) returns (r: seq<Candidate>)
      requires Valid()
      ensures NearlyKnn(View().index, q, spatialIndex.root.bounds, r)
      ensures BoundsWithin(q.metric, q.from, spatialIndex.root.bounds, 0.0) ==> IsKnn(View().index, q, r)
    {
      r := spatialIndex.KNearestNeighbors(q);
    }

    method EvictStaleDrivers(timeoutMs: int, now: int) returns (evictIds: seq<Id>)
      requires Valid()
      modifies this`mirrored, spatialIndex, spatialIndex.nodes, drivers.Values
      ensures Valid() && fresh(spatialIndex.nodes - old(spatialIndex.nodes))
      ensures fresh(spatialIndex.at.Values - old(spatialIndex.at.Values))
      ensures View() == EvictStale(old(View()), order, timeoutMs, now)
      ensures evictIds == StaleIds(old(View()), order, timeoutMs, now)
      ensures RegistryRuns.Conforms(old(View()), View(), RegistryRuns.Evict(order, timeoutMs), now)
    {
      RegistryRuns.OpConforms(View(), RegistryRuns.Evict(order, timeoutMs), now);
      evictIds := EvictEach(timeoutMs, now);
    }

    method EvictEach(timeoutMs: int, now: int) returns (evictIds: seq<Id>)
      requires Valid()
      modifies this`mirrored, spatialIndex, spatialIndex.nodes, drivers.Values
      ensures Valid() && fresh(spatialIndex.nodes - old(spatialIndex.nodes))
      ensures fresh(spatialIndex.at.Values - old(spatialIndex.at.Values))
      ensures View() == EvictStale(old(View()), order, timeoutMs, now)
      ensures evictIds == StaleIds(old(View()), order, timeoutMs, now)
    {
      ghost var was := View();
      var ids := order;
      evictIds := [];
      SweepStarts(was, ids, timeoutMs, now);
      for i := 0 to |ids|
        invariant Valid() && fresh(spatialIndex.nodes - old(spatialIndex.nodes))
        invariant fresh(spatialIndex.at.Values - old(spatialIndex.at.Values))
        invariant Sweeping(was, View(), ids, i, timeoutMs, now, evictIds)
      {
        evictIds := SweepOne(was, ids, i, timeoutMs, now, evictIds);
      }
      SweepEnds(was, View(), ids, timeoutMs, now, evictIds);
    }

    method SweepOne(ghost was: Registry, ids: seq<Id>, i: nat, timeoutMs: int, now: int, evicted: seq<Id>)
      returns (evictIds: seq<Id>)
      requires Valid() && i < |ids| && Sweeping(was, View(), ids, i, timeoutMs, now, evicted)
      modifies this`mirrored, spatialIndex, spatialIndex.nodes, drivers.Values
      ensures Valid() && fresh(spatialIndex.nodes - old(spatialIndex.nodes))
      ensures fresh(spatialIndex.at.Values - old(spatialIndex.at.Values))
      ensures Sweeping(was, View(), ids, i + 1, timeoutMs, now, evictIds)
    {
      ghost var r := View();
      var stale := EvictIfStale(ids[i], timeoutMs, now);
      evictIds := evicted + if stale then [ids[i]] else [];
      SweepNext(was, r, View(), ids, i, timeoutMs, now, evicted, stale);
    }

    method EvictIfStale(id: Id, timeoutMs: int, now: int) returns (stale: bool)
      requires Valid()
      modifies this`mirrored, spatialIndex, spatialIndex.nodes, drivers.Values
      ensures Valid() && fresh(spatialIndex.nodes - old(spatialIndex.nodes))
      ensures fresh(spatialIndex.at.Values - old(spatialIndex.at.Values))
      ensures stale == (id in old(View()).drivers && IsStale(old(View()).drivers[id], timeoutMs, now))
      ensures View() == if stale then EvictOne(old(View()), id) else old(View())
    {
      stale := id in drivers && drivers[id].status != Offline && timeoutMs < now - drivers[id].lastSeen;
      if stale {
        drivers[id].status, drivers[id].lockToken := Offline, None;
        WroteRecord(id);
        IdxRemove(id);
      }
    }
  }
}
