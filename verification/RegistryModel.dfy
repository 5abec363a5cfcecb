/** What the driver registry does to its records and its search index, operation by operation. */
module RegistryModel {
  import opened Geometry

  datatype Option<+T> = None | Some(value: T)

  datatype Status = Available | Busy | Offline

  datatype Lock = Lock(requestId: Id, expiresAt: int)

  datatype Driver = Driver(pos: Pos, status: Status, lock: Option<Lock>, lastSeen: int)

  /** What the registry tells a secondary index. */
  datatype MirrorCommand = InsertCmd(id: Id, pos: Pos) | UpdateCmd(id: Id, pos: Pos) | RemoveCmd(id: Id)

  datatype Registry = Registry(region: Box, drivers: map<Id, Driver>, index: map<Id, Pos>, sent: seq<MirrorCommand>)

  // ---- The search index and its mirror ----

  function IdxInsert(r: Registry, id: Id, pos: Pos): (Registry, bool) {
    if InBox(r.region, pos) then
      (r.(index := r.index[id := pos], sent := r.sent + [InsertCmd(id, pos)]), true)
    else
      (r.(index := r.index - {id}), false)
  }

  function IdxUpdate(r: Registry, id: Id, pos: Pos): (Registry, bool) {
    if id in r.index && InBox(r.region, pos) then
      (r.(index := r.index[id := pos], sent := r.sent + [UpdateCmd(id, pos)]), true)
    else
      (r.(index := r.index - {id}), false)
  }

  function IdxRemove(r: Registry, id: Id): Registry {
    r.(index := r.index - {id}, sent := r.sent + [RemoveCmd(id)])
  }

  // ---- The operations ----

  function CleanExpiredLock(r: Registry, id: Id, now: int): Registry
    requires id in r.drivers
  {
    var d := r.drivers[id];
    if d.lock.Some? && d.lock.value.expiresAt <= now then
      var unlocked := r.(drivers := r.drivers[id := d.(lock := None)]);
      if d.status == Available then IdxInsert(unlocked, id, d.pos).0 else unlocked
    else r
  }

  function RegisterDriver(r: Registry, id: Id, pos: Pos, status: Status, now: int): Registry {
    if id in r.drivers then
      r.(drivers := r.drivers[id := r.drivers[id].(lastSeen := now)])
    else
      var indexed := if status == Available && !InBox(r.region, pos) then Offline else status;
      var added := r.(drivers := r.drivers[id := Driver(pos, indexed, None, now)]);
      if indexed == Available then IdxInsert(added, id, pos).0 else added
  }

  /** Coordinates of the globe; everything else is a corrupt reading. */
  predicate OnGlobe(pos: Pos) {
    -90.0 <= pos.lat <= 90.0 && -180.0 <= pos.lng <= 180.0
  }

  function UpdateLocation(r: Registry, id: Id, pos: Pos, now: int): (Registry, bool) {
    if id !in r.drivers || !OnGlobe(pos) || !InBox(r.region, pos) then (r, false)
    else Follow(r.(drivers := r.drivers[id := r.drivers[id].(pos := pos, lastSeen := now)]), id, pos, now)
  }

  /** The search entry of a driver that has moved follows if the driver should have one. */
  function Follow(r: Registry, id: Id, pos: Pos, now: int): (Registry, bool)
    requires id in r.drivers
  {
    var clean := CleanExpiredLock(r, id, now);
    if clean.drivers[id].status == Available && clean.drivers[id].lock == None then
      var (updated, ok) := IdxUpdate(clean, id, pos);
      if ok then (updated, true) else IdxInsert(updated, id, pos)
    else (clean, true)
  }

  function SetStatus(r: Registry, id: Id, status: Status, now: int): (Registry, bool) {
    if id !in r.drivers then (r, false)
    else
      var d := r.drivers[id].(lastSeen := now);
      if status != Available then
        var changed := r.(drivers := r.drivers[id := d.(status := status, lock := None)]);
        (if d.status == Available then IdxRemove(changed, id) else changed, true)
      else if d.lock == None then
        if !InBox(r.region, d.pos) then
          (r.(drivers := r.drivers[id := d.(status := Offline)]), false)
        else
          IdxInsert(r.(drivers := r.drivers[id := d.(status := Available)]), id, d.pos)
      else
        (r.(drivers := r.drivers[id := d.(status := Available)]), true)
  }

  function AcquireLock(r: Registry, id: Id, requestId: Id, ttlMs: int, now: int): (Registry, bool) {
    if id !in r.drivers || r.drivers[id].status != Available then (r, false)
    else
      var clean := CleanExpiredLock(r, id, now);
      if clean.drivers[id].lock.Some? then (clean, false)
      else
        var locked := clean.drivers[id].(lock := Some(Lock(requestId, now + ttlMs)));
        (IdxRemove(clean.(drivers := clean.drivers[id := locked]), id), true)
  }

  function ReleaseLock(r: Registry, id: Id, requestId: Id): (Registry, bool) {
    if id !in r.drivers then (r, false)
    else
      var d := r.drivers[id];
      if d.lock.Some? && d.lock.value.requestId != requestId then (r, false)
      else
        var released := r.(drivers := r.drivers[id := d.(lock := None)]);
        (if d.status == Available then IdxInsert(released, id, d.pos).0 else released, true)
  }

  function CommitTrip(r: Registry, id: Id, requestId: Id, now: int): (Registry, bool) {
    if id !in r.drivers then (r, false)
    else
      var d := r.drivers[id];
      if d.lock == None || d.lock.value.requestId != requestId then (r, false)
      else if d.lock.value.expiresAt <= now then (ReleaseLock(r, id, requestId).0, false)
      else (r.(drivers := r.drivers[id := d.(lock := None, status := Busy)]), true)
  }

  function CompleteTrip(r: Registry, id: Id, now: int): (Registry, bool) {
    SetStatus(r, id, Available, now)
  }

  predicate IsStale(d: Driver, timeoutMs: int, now: int) {
    d.status != Offline && timeoutMs < now - d.lastSeen
  }

  function EvictOne(r: Registry, id: Id): Registry
    requires id in r.drivers
  {
    IdxRemove(r.(drivers := r.drivers[id := r.drivers[id].(status := Offline, lock := None)]), id)
  }

  /** Visits the drivers in the order of the map. */
  function EvictStale(r: Registry, order: seq<Id>, timeoutMs: int, now: int): (r': Registry)
    ensures r'.region == r.region && r'.drivers.Keys == r.drivers.Keys
    decreases |order|
  {
    if order == [] then r
    else
      var id := order[0];
      var one := if id in r.drivers && IsStale(r.drivers[id], timeoutMs, now) then EvictOne(r, id) else r;
      EvictStale(one, order[1..], timeoutMs, now)
  }

  /** The drivers an eviction reports. */
  function StaleIds(r: Registry, order: seq<Id>, timeoutMs: int, now: int): seq<Id>
    decreases |order|
  {
    if order == [] then []
    else if order[0] in r.drivers && IsStale(r.drivers[order[0]], timeoutMs, now) then
      [order[0]] + StaleIds(EvictOne(r, order[0]), order[1..], timeoutMs, now)
    else StaleIds(r, order[1..], timeoutMs, now)
  }

  lemma EvictNext(r: Registry, order: seq<Id>, i: nat, timeoutMs: int, now: int)
    requires i < |order|
    ensures
      var id := order[i];
      var stale := id in r.drivers && IsStale(r.drivers[id], timeoutMs, now);
      var one := if stale then EvictOne(r, id) else r;
      && EvictStale(r, order[i..], timeoutMs, now) == EvictStale(one, order[i + 1..], timeoutMs, now)
      && StaleIds(r, order[i..], timeoutMs, now) ==
        (if stale then [id] else []) + StaleIds(one, order[i + 1..], timeoutMs, now)
  {
    assert order[i..][1..] == order[i + 1..];
  }

  /** What is left to evict brings the registry and the reported ids to where the whole eviction does. */
  ghost predicate Sweeping(
      was: Registry, r: Registry, order: seq<Id>, i: nat, timeoutMs: int, now: int, evicted: seq<Id>)
    requires i <= |order|
  {
    && EvictStale(r, order[i..], timeoutMs, now) == EvictStale(was, order, timeoutMs, now)
    && evicted + StaleIds(r, order[i..], timeoutMs, now) == StaleIds(was, order, timeoutMs, now)
  }

  lemma SweepStarts(r: Registry, order: seq<Id>, timeoutMs: int, now: int)
    ensures Sweeping(r, r, order, 0, timeoutMs, now, [])
  {
    assert order[0..] == order;
  }

  lemma SweepEnds(was: Registry, r: Registry, order: seq<Id>, timeoutMs: int, now: int, evicted: seq<Id>)
    requires Sweeping(was, r, order, |order|, timeoutMs, now, evicted)
    ensures r == EvictStale(was, order, timeoutMs, now) && evicted == StaleIds(was, order, timeoutMs, now)
  {
    assert order[|order|..] == [];
  }

  lemma SweepNext(
      was: Registry, r: Registry, r': Registry, order: seq<Id>, i: nat, timeoutMs: int, now: int,
      evicted: seq<Id>, stale: bool)
    requires i < |order| && Sweeping(was, r, order, i, timeoutMs, now, evicted)
    requires stale == (order[i] in r.drivers && IsStale(r.drivers[order[i]], timeoutMs, now))
    requires r' == if stale then EvictOne(r, order[i]) else r
    ensures Sweeping(was, r', order, i + 1, timeoutMs, now, evicted + if stale then [order[i]] else [])
  {
    EvictNext(r, order, i, timeoutMs, now);
  }

  // ---- What holds between any two operations ----

  /** A driver is searchable exactly when it is available and unleased, where its record says. */
  predicate DriverOk(r: Registry, id: Id)
    requires id in r.drivers
  {
    var d := r.drivers[id];
    && (id in r.index <==> d.status == Available && d.lock == None)
    && (id in r.index ==> r.index[id] == d.pos)
    && (d.status == Available ==> InBox(r.region, d.pos))
    && (d.lock.Some? ==> d.status == Available)
  }

  ghost predicate RegistryOk(r: Registry) {
    && r.index.Keys <= r.drivers.Keys
    && (forall id {:trigger DriverOk(r, id)} | id in r.drivers :: DriverOk(r, id))
    && MirrorOf(r.region, r.sent) == r.index
  }

  /** The drivers a C++ tree of the same region stores after these commands. */
  function MirrorOf(region: Box, sent: seq<MirrorCommand>): map<Id, Pos> {
    if sent == [] then map[]
    else Mirrored(region, MirrorOf(region, sent[..|sent| - 1]), sent[|sent| - 1])
  }

  function Mirrored(region: Box, m: map<Id, Pos>, c: MirrorCommand): map<Id, Pos> {
    match c
    case InsertCmd(id, pos) => if InBox(region, pos) then m[id := pos] else m
    case UpdateCmd(id, pos) => if id in m && InBox(region, pos) then m[id := pos] else m
    case RemoveCmd(id) => m - {id}
  }

  lemma MirrorAppend(region: Box, sent: seq<MirrorCommand>, c: MirrorCommand)
    ensures MirrorOf(region, sent + [c]) == Mirrored(region, MirrorOf(region, sent), c)
  {
    assert (sent + [c])[..|sent|] == sent;
  }

  /** An operation on one driver leaves every other driver as it was. */
  ghost predicate OnlyTouches(r: Registry, r': Registry, id: Id) {
    && r'.region == r.region
    && r'.drivers - {id} == r.drivers - {id} && r'.index - {id} == r.index - {id}
    && r.drivers.Keys <= r'.drivers.Keys
  }

  lemma OthersOk(r: Registry, r': Registry, id: Id)
    requires RegistryOk(r) && OnlyTouches(r, r', id)
    requires id in r'.drivers && DriverOk(r', id) && MirrorOf(r'.region, r'.sent) == r'.index
    ensures RegistryOk(r')
  {
    forall d | d in r'.drivers ensures DriverOk(r', d) {
      if d != id {
        assert d in (r'.drivers - {id}) && d in r.drivers
          && r'.drivers[d] == (r'.drivers - {id})[d] == (r.drivers - {id})[d];
        assert d in r'.index <==> d in r'.index - {id};
        assert d in r.index <==> d in r.index - {id};
        assert d in r.index ==> r'.index[d] == (r'.index - {id})[d] == (r.index - {id})[d];
        assert DriverOk(r, d);
      }
    }
    forall d | d in r'.index ensures d in r'.drivers {
      if d != id {
        assert d in r'.index - {id};
      }
    }
  }

  lemma CleanExpiredLockOk(r: Registry, id: Id, now: int)
    requires RegistryOk(r) && id in r.drivers
    ensures RegistryOk(CleanExpiredLock(r, id, now)) && OnlyTouches(r, CleanExpiredLock(r, id, now), id)
  {
    assert DriverOk(r, id);
    var r' := CleanExpiredLock(r, id, now);
    MirrorAppend(r.region, r.sent, InsertCmd(id, r.drivers[id].pos));
    OthersOk(r, r', id);
  }

  lemma RegisterDriverOk(r: Registry, id: Id, pos: Pos, status: Status, now: int)
    requires RegistryOk(r)
    ensures RegistryOk(RegisterDriver(r, id, pos, status, now))
    ensures OnlyTouches(r, RegisterDriver(r, id, pos, status, now), id)
  {
    if id in r.drivers {
      assert DriverOk(r, id);
      OthersOk(r, RegisterDriver(r, id, pos, status, now), id);
    } else {
      AddedDriverOk(r, id, pos, if status == Available && !InBox(r.region, pos) then Offline else status, now);
    }
  }

  lemma AddedDriverOk(r: Registry, id: Id, pos: Pos, status: Status, now: int)
    requires RegistryOk(r) && id !in r.drivers && (status == Available ==> InBox(r.region, pos))
    ensures
      var added := r.(drivers := r.drivers[id := Driver(pos, status, None, now)]);
      var r' := if status == Available then IdxInsert(added, id, pos).0 else added;
      RegistryOk(r') && OnlyTouches(r, r', id)
  {
    var added := r.(drivers := r.drivers[id := Driver(pos, status, None, now)]);
    MirrorAppend(r.region, r.sent, InsertCmd(id, pos));
    OthersOk(r, if status == Available then IdxInsert(added, id, pos).0 else added, id);
  }

  lemma UpdateLocationOk(r: Registry, id: Id, pos: Pos, now: int)
    requires RegistryOk(r)
    ensures RegistryOk(UpdateLocation(r, id, pos, now).0) && OnlyTouches(r, UpdateLocation(r, id, pos, now).0, id)
    ensures UpdateLocation(r, id, pos, now).1 == (id in r.drivers && OnGlobe(pos) && InBox(r.region, pos))
  {
    if id in r.drivers && OnGlobe(pos) && InBox(r.region, pos) {
      FollowOk(r, id, pos, now);
    }
  }

  /** An accepted position is the driver's position from then on, in its record and for searches; the driver was
      heard from now, keeps its status, and loses its lease exactly if that has run out. */
  lemma LocationRecorded(r: Registry, id: Id, pos: Pos, now: int)
    requires RegistryOk(r) && UpdateLocation(r, id, pos, now).1
    ensures
      var r' := UpdateLocation(r, id, pos, now).0;
      var d, d' := r.drivers[id], r'.drivers[id];
      && d'.pos == pos && d'.lastSeen == now && d'.status == d.status
      && d'.lock == (if d.lock.Some? && d.lock.value.expiresAt <= now then None else d.lock)
      && (id in r'.index <==> d.status == Available && (d.lock == None || d.lock.value.expiresAt <= now))
      && (id in r'.index ==> r'.index[id] == pos)
  {
    UpdateLocationOk(r, id, pos, now);
    assert DriverOk(r, id) && DriverOk(UpdateLocation(r, id, pos, now).0, id);
  }

  lemma FollowOk(r: Registry, id: Id, pos: Pos, now: int)
    requires RegistryOk(r) && id in r.drivers && InBox(r.region, pos)
    ensures
      var moved := r.(drivers := r.drivers[id := r.drivers[id].(pos := pos, lastSeen := now)]);
      var (r', ok) := Follow(moved, id, pos, now);
      RegistryOk(r') && OnlyTouches(r, r', id) && ok
  {
    assert DriverOk(r, id);
    var moved := r.(drivers := r.drivers[id := r.drivers[id].(pos := pos, lastSeen := now)]);
    var clean := CleanExpiredLock(moved, id, now);
    MirrorAppend(r.region, r.sent, InsertCmd(id, pos));
    MirrorAppend(r.region, clean.sent, UpdateCmd(id, pos));
    OthersOk(r, Follow(moved, id, pos, now).0, id);
  }

  lemma SetStatusOk(r: Registry, id: Id, status: Status, now: int)
    requires RegistryOk(r)
    ensures RegistryOk(SetStatus(r, id, status, now).0) && OnlyTouches(r, SetStatus(r, id, status, now).0, id)
  {
    var r' := SetStatus(r, id, status, now).0;
    if id in r.drivers {
      assert DriverOk(r, id);
      MirrorAppend(r.region, r.sent, InsertCmd(id, r.drivers[id].pos));
      MirrorAppend(r.region, r.sent, RemoveCmd(id));
      OthersOk(r, r', id);
    }
  }

  lemma AcquireLockOk(r: Registry, id: Id, requestId: Id, ttlMs: int, now: int)
    requires RegistryOk(r)
    ensures RegistryOk(AcquireLock(r, id, requestId, ttlMs, now).0)
    ensures OnlyTouches(r, AcquireLock(r, id, requestId, ttlMs, now).0, id)
  {
    var r' := AcquireLock(r, id, requestId, ttlMs, now).0;
    if id in r.drivers && r.drivers[id].status == Available {
      CleanExpiredLockOk(r, id, now);
      var clean := CleanExpiredLock(r, id, now);
      assert DriverOk(clean, id);
      if clean.drivers[id].lock == None {
        MirrorAppend(r.region, clean.sent, RemoveCmd(id));
        OthersOk(clean, r', id);
      }
    }
  }

  lemma ReleaseLockOk(r: Registry, id: Id, requestId: Id)
    requires RegistryOk(r)
    ensures RegistryOk(ReleaseLock(r, id, requestId).0) && OnlyTouches(r, ReleaseLock(r, id, requestId).0, id)
  {
    var r' := ReleaseLock(r, id, requestId).0;
    if ReleaseLock(r, id, requestId).1 {
      assert DriverOk(r, id);
      MirrorAppend(r.region, r.sent, InsertCmd(id, r.drivers[id].pos));
      assert DriverOk(r', id);
      OthersOk(r, r', id);
    }
  }

  lemma CommitTripOk(r: Registry, id: Id, requestId: Id, now: int)
    requires RegistryOk(r)
    ensures RegistryOk(CommitTrip(r, id, requestId, now).0) && OnlyTouches(r, CommitTrip(r, id, requestId, now).0, id)
  {
    var r' := CommitTrip(r, id, requestId, now).0;
    ReleaseLockOk(r, id, requestId);
    if id in r.drivers {
      assert DriverOk(r, id);
      if r' != ReleaseLock(r, id, requestId).0 {
        OthersOk(r, r', id);
      }
    }
  }

  lemma EvictOneOk(r: Registry, id: Id)
    requires RegistryOk(r) && id in r.drivers
    ensures RegistryOk(EvictOne(r, id)) && OnlyTouches(r, EvictOne(r, id), id)
  {
    assert DriverOk(r, id);
    MirrorAppend(r.region, r.sent, RemoveCmd(id));
    OthersOk(r, EvictOne(r, id), id);
  }

  lemma {:induction false} EvictStaleOk(r: Registry, order: seq<Id>, timeoutMs: int, now: int)
    requires RegistryOk(r)
    ensures RegistryOk(EvictStale(r, order, timeoutMs, now))
    decreases |order|
  {
    if order != [] {
      var id := order[0];
      if id in r.drivers && IsStale(r.drivers[id], timeoutMs, now) {
        EvictOneOk(r, id);
        EvictStaleOk(EvictOne(r, id), order[1..], timeoutMs, now);
      } else {
        EvictStaleOk(r, order[1..], timeoutMs, now);
      }
    }
  }

  /** Eviction takes exactly the silent drivers offline, unleases them and stops offering them. */
  lemma {:induction false} EvictStaleExact(r: Registry, order: seq<Id>, timeoutMs: int, now: int, id: Id)
    requires RegistryOk(r) && id in r.drivers
    ensures
      var r' := EvictStale(r, order, timeoutMs, now);
      if id in order && IsStale(r.drivers[id], timeoutMs, now) then
        r'.drivers[id] == r.drivers[id].(status := Offline, lock := None) && id !in r'.index
      else
        r'.drivers[id] == r.drivers[id] && (id in r'.index <==> id in r.index)
    ensures id in StaleIds(r, order, timeoutMs, now) <==> id in order && IsStale(r.drivers[id], timeoutMs, now)
    decreases |order|
  {
    if order != [] {
      var first := order[0];
      if first in r.drivers && IsStale(r.drivers[first], timeoutMs, now) {
        EvictOneOk(r, first);
        var one := EvictOne(r, first);
        EvictStaleExact(one, order[1..], timeoutMs, now, id);
        if id != first {
          assert one.drivers[id] == r.drivers[id] && (id in one.index <==> id in r.index);
        }
      } else {
        EvictStaleExact(r, order[1..], timeoutMs, now, id);
      }
      assert id in order <==> id == first || id in order[1..];
    }
  }

  /** The request a driver is leased to, if any. */
  function Holder(r: Registry, id: Id): Option<Id> {
    if id in r.drivers && r.drivers[id].lock.Some? then Some(r.drivers[id].lock.value.requestId) else None
  }

  /** Releasing or committing never touches a lease that names another request. */
  lemma NoTheft(r: Registry, id: Id, requestId: Id, other: Id, driver: Id, now: int)
    requires Holder(r, driver) == Some(other) && other != requestId
    ensures Holder(ReleaseLock(r, id, requestId).0, driver) == Some(other)
    ensures Holder(CommitTrip(r, id, requestId, now).0, driver) == Some(other)
  {
  }

  /** A lease goes to one request only, is refused while another is unexpired, and ends with its release. */
  lemma LeaseExclusive(r: Registry, id: Id, a: Id, b: Id, ttlA: int, ttlB: int, t0: int, t1: int)
    requires RegistryOk(r) && AcquireLock(r, id, a, ttlA, t0).1
    ensures
      var r1 := AcquireLock(r, id, a, ttlA, t0).0;
      && Holder(r1, id) == Some(a) && id !in r1.index
      && (AcquireLock(r1, id, b, ttlB, t1).1 <==> t0 + ttlA <= t1)
      && Holder(ReleaseLock(r1, id, a).0, id) == None && id in ReleaseLock(r1, id, a).0.index
  {
    AcquireLockOk(r, id, a, ttlA, t0);
    assert DriverOk(AcquireLock(r, id, a, ttlA, t0).0, id);
  }

  /** A commit succeeds exactly for the holder of an unexpired lease, and takes the driver off the market;
      a holder who comes too late loses the lease, and the driver is found again. */
  lemma CommitExact(r: Registry, id: Id, requestId: Id, now: int)
    requires RegistryOk(r)
    ensures
      var (r', ok) := CommitTrip(r, id, requestId, now);
      && (ok <==> Holder(r, id) == Some(requestId) && now < r.drivers[id].lock.value.expiresAt)
      && (ok ==> r'.drivers[id] == r.drivers[id].(status := Busy, lock := None))
      && (ok ==> r'.index == r.index && id !in r'.index && r'.sent == r.sent)
      && (!ok && Holder(r, id) == Some(requestId) ==> Holder(r', id) == None && id in r'.index)
      && (!ok && Holder(r, id) != Some(requestId) ==> r' == r)
  {
    if id in r.drivers {
      assert DriverOk(r, id);
    }
  }

  /** Registering again neither breaks nor prolongs a lease, nor moves the driver: searches, leases and commits
      come out as if it had not happened. */
  lemma ReconnectChangesNothing(r: Registry, id: Id, pos: Pos, status: Status, now: int)
    requires RegistryOk(r) && id in r.drivers
    ensures
      var r' := RegisterDriver(r, id, pos, status, now);
      && RegistryOk(r') && r'.index == r.index && r'.sent == r.sent
      && (forall d :: Holder(r', d) == Holder(r, d))
      && (forall requestId, t :: CommitTrip(r', id, requestId, t).1 == CommitTrip(r, id, requestId, t).1)
      && (forall requestId, ttlMs, t ::
        AcquireLock(r', id, requestId, ttlMs, t).1 == AcquireLock(r, id, requestId, ttlMs, t).1)
  {
    RegisterDriverOk(r, id, pos, status, now);
  }

  /** A driver just heard from survives an eviction exactly until the timeout has passed since then. */
  lemma HeardFromSurvives(heard: Registry, id: Id, now: int, order: seq<Id>, timeoutMs: int, later: int)
    requires RegistryOk(heard) && id in order && id in heard.drivers && heard.drivers[id].lastSeen == now
    ensures EvictStale(heard, order, timeoutMs, later).drivers[id] == heard.drivers[id] <==>
              heard.drivers[id].status == Offline || later - now <= timeoutMs
  {
    EvictStaleExact(heard, order, timeoutMs, later, id);
  }

  /** Registration, also of a known driver, counts as hearing from it. */
  lemma RegistrationSurvives(
      r: Registry, id: Id, pos: Pos, status: Status, now: int, order: seq<Id>, timeoutMs: int, later: int)
    requires RegistryOk(r) && id in order
    ensures
      var heard := RegisterDriver(r, id, pos, status, now);
      EvictStale(heard, order, timeoutMs, later).drivers[id] == heard.drivers[id] <==>
        heard.drivers[id].status == Offline || later - now <= timeoutMs
  {
    RegisterDriverOk(r, id, pos, status, now);
    HeardFromSurvives(RegisterDriver(r, id, pos, status, now), id, now, order, timeoutMs, later);
  }

  /** So does an accepted position. */
  lemma LocationSurvives(r: Registry, id: Id, pos: Pos, now: int, order: seq<Id>, timeoutMs: int, later: int)
    requires RegistryOk(r) && id in order && UpdateLocation(r, id, pos, now).1
    ensures
      var heard := UpdateLocation(r, id, pos, now).0;
      EvictStale(heard, order, timeoutMs, later).drivers[id] == heard.drivers[id] <==>
        heard.drivers[id].status == Offline || later - now <= timeoutMs
  {
    UpdateLocationOk(r, id, pos, now);
    HeardFromSurvives(UpdateLocation(r, id, pos, now).0, id, now, order, timeoutMs, later);
  }

  /** A driver becomes available again on request exactly when it is known and inside the region, or still leased;
      it is found exactly when it is not leased. */
  lemma AvailableAgain(r: Registry, id: Id, now: int)
    requires RegistryOk(r)
    ensures
      var (r', ok) := CompleteTrip(r, id, now);
      && (ok <==> id in r.drivers && (r.drivers[id].lock.Some? || InBox(r.region, r.drivers[id].pos)))
      && (ok ==> r'.drivers[id].status == Available && r'.drivers[id].lock == r.drivers[id].lock)
      && (ok ==> (id in r'.index <==> r.drivers[id].lock == None))
      && (!ok && id in r.drivers ==> r'.drivers[id].status == Offline && id !in r'.index)
  {
    if id in r.drivers {
      assert DriverOk(r, id);
    }
  }
}
