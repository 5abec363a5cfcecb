/** What callers of the trip state machine can rely on: when a move succeeds, what it writes, how rides go from
    request to completion, and which trip makes room for a new one. */
module TripLaws {
  import opened Geometry
  import opened RegistryModel
  import opened TripModel

  // ---- When a move succeeds ----

  /** The statuses from which a trip may get to another. */
  function Origins(to: TripStatus): set<TripStatus> {
    match to
    case Requested => {}
    case Matching => {Requested, EnRoute, Arrived}
    case Matched => {Matching}
    case EnRoute => {Matched}
    case Arrived => {Matched, EnRoute}
    case InProgress => {Arrived}
    case Completed => {InProgress}
    case Cancelled => {Requested, Matching, Matched, EnRoute, Arrived}
  }

  /** Arrival, start and completion are the driver's to report; a driver cancels only a trip it is on. */
  predicate MayMove(from: TripStatus, to: TripStatus, actor: Role) {
    && from in Origins(to)
    && (to in {Arrived, InProgress, Completed} ==> actor == Driving)
    && (to == TripStatus.Cancelled && actor == Driving ==> from in {Matched, EnRoute, Arrived})
  }

  /** A driver who is on no trip, under a name that is not only white space. */
  predicate Bookable(m: Machine, driver: Option<Id>) {
    && driver.Some? && driver.value !in m.activeDrivers
    && exists i :: 0 <= i < |driver.value.name| && !IsSpace(driver.value.name[i])
  }

  /** Which refusal a caller gets: the first that applies, in this order. */
  lemma RefusalIff(
      m: Machine, tripId: Id, to: TripStatus, actor: Role, reason: Option<string>, driver: Option<Id>, now: int)
    requires IndexesOk(m)
    ensures
      var res := Transition(m, tripId, to, actor, reason, driver, now).1;
      if tripId !in m.trips then res == NotFound
      else
        var from := m.trips[tripId].status;
        if from == to then res == Unchanged
        else if from !in Origins(to) then res == Invalid
        else if !MayMove(from, to, actor) then res == Forbidden
        else if to != Matched || Bookable(m, driver) then res.Moved?
        else res == if driver.Some? && driver.value in m.activeDrivers && !Blank(driver.value) then DoubleBooked
          else NoDriver
  {
    if tripId in m.trips {
      assert TripOk(m, tripId);
      if driver.Some? && driver.value in m.activeDrivers {
        assert DriverOf(m, driver.value);
      }
    }
  }

  /** Who may send a trip where, and when that succeeds; a failure changes nothing. */
  lemma MovesIff(
      m: Machine, tripId: Id, to: TripStatus, actor: Role, reason: Option<string>, driver: Option<Id>, now: int)
    requires IndexesOk(m)
    ensures
      var (m', res) := Transition(m, tripId, to, actor, reason, driver, now);
      && (res.Moved? <==>
            && tripId in m.trips && MayMove(m.trips[tripId].status, to, actor)
            && (to == Matched ==> Bookable(m, driver)))
      && (res.Moved? ==> tripId in m'.trips && m'.trips[tripId].status == to)
      && (res.Unchanged? <==> tripId in m.trips && m.trips[tripId].status == to)
      && (!res.Moved? ==> m' == m)
  {
    RefusalIff(m, tripId, to, actor, reason, driver, now);
    MovedOrNot(m, tripId, to, actor, reason, driver, now);
  }

  lemma MovedOrNot(
      m: Machine, tripId: Id, to: TripStatus, actor: Role, reason: Option<string>, driver: Option<Id>, now: int)
    ensures
      var (m', res) := Transition(m, tripId, to, actor, reason, driver, now);
      if res.Moved? then tripId in m'.trips && m'.trips[tripId].status == to else m' == m
  {
  }

  /** What a move writes into the trip: the target's own time stamp and nothing else but the driver. */
  function Written(t: Trip, to: TripStatus, actor: Role, reason: Option<string>, driver: Option<Id>, now: int): Trip {
    match to
    case Matching => t.(status := to, driverId := None, matchedAt := None, arrivedAt := None)
    case Matched => t.(status := to, driverId := driver, matchedAt := Some(now))
    case Arrived => t.(status := to, arrivedAt := Some(now))
    case InProgress => t.(status := to, startedAt := Some(now))
    case Completed => t.(status := to, completedAt := Some(now))
    case Cancelled =>
      t.(status := to, cancelledAt := Some(now), cancelledBy := Some(actor),
         reason := if reason == Some("") then None else reason)
    case _ => t.(status := to)
  }

  /** One trip is written, one event appended, and rider and driver are given back when the trip ends. */
  ghost predicate Wrote(m: Machine, m': Machine, tripId: Id, to: TripStatus, actor: Role, reason: Option<string>,
    driver: Option<Id>, now: int)
    requires tripId in m.trips
  {
    var t := m.trips[tripId];
    && MachineOk(m') && m'.trips == m.trips[tripId := Written(t, to, actor, reason, driver, now)]
    && m'.history == m.history + [Event(tripId, t.requestId, t.status, to, actor, now, driver)]
    && m'.requestToTrip == m.requestToTrip
    && m'.activeRiders == (if to in {Completed, TripStatus.Cancelled} then m.activeRiders - {t.riderId}
                           else m.activeRiders)
    && m'.activeDrivers == (if to == Matched && driver.Some? then m.activeDrivers[driver.value := tripId]
                            else if to in {Completed, TripStatus.Cancelled, Matching} && t.driverId.Some? then
                              m.activeDrivers - {t.driverId.value}
                            else m.activeDrivers)
  }

  lemma MoveWrites(
      m: Machine, tripId: Id, to: TripStatus, actor: Role, reason: Option<string>, driver: Option<Id>, now: int)
    requires MachineOk(m) && Transition(m, tripId, to, actor, reason, driver, now).1.Moved?
    ensures Wrote(m, Transition(m, tripId, to, actor, reason, driver, now).0, tripId, to, actor, reason, driver, now)
  {
    TransitionOk(m, tripId, to, actor, reason, driver, now);
    MovedShape(m, tripId, to, actor, reason, driver, now);
    assert TripOk(m, tripId);
    if m.trips[tripId].driverId.Some? {
      var d := m.trips[tripId].driverId.value;
      assert m.activeDrivers == (m.activeDrivers - {d})[d := tripId];
    }
  }

  // ---- Rides ----

  function Drive(m: Machine, tripId: Id, to: TripStatus, now: int): Machine {
    Transition(m, tripId, to, Driving, None, None, now).0
  }

  /** What one accepted report of the driver does, events aside. */
  ghost predicate Drove(m: Machine, m': Machine, tripId: Id, to: TripStatus, now: int)
    requires tripId in m.trips
  {
    var t := m.trips[tripId];
    && MachineOk(m') && m'.trips == m.trips[tripId := Written(t, to, Driving, None, None, now)]
    && m'.activeRiders == (if to == Completed then m.activeRiders - {t.riderId} else m.activeRiders)
    && m'.activeDrivers ==
      (if to == Completed && t.driverId.Some? then m.activeDrivers - {t.driverId.value} else m.activeDrivers)
  }

  lemma Driven(m: Machine, tripId: Id, to: TripStatus, now: int)
    requires MachineOk(m) && tripId in m.trips && m.trips[tripId].status in Origins(to)
    requires to in {EnRoute, Arrived, InProgress, Completed}
    ensures Drove(m, Drive(m, tripId, to, now), tripId, to, now)
  {
    MovesIff(m, tripId, to, Driving, None, None, now);
    MoveWrites(m, tripId, to, Driving, None, None, now);
  }

  /** The trip now reads `t'`, and its rider and driver are free for other trips. */
  ghost predicate Finished(m: Machine, m': Machine, tripId: Id, t': Trip)
    requires tripId in m.trips && m.trips[tripId].driverId.Some?
  {
    && MachineOk(m') && m'.trips == m.trips[tripId := t']
    && m'.activeRiders == m.activeRiders - {m.trips[tripId].riderId}
    && m'.activeDrivers == m.activeDrivers - {m.trips[tripId].driverId.value}
  }

  lemma FinishedSince(m: Machine, m1: Machine, m': Machine, tripId: Id, to: TripStatus, now: int, t': Trip)
    requires tripId in m.trips && m.trips[tripId].driverId.Some? && Drove(m, m1, tripId, to, now)
    requires to in {EnRoute, Arrived, InProgress} && Finished(m1, m', tripId, t')
    ensures Finished(m, m', tripId, t')
  {
    Overwrites(m.trips, tripId, m1.trips[tripId], t');
  }

  lemma Overwrites<K, V>(m: map<K, V>, k: K, v: V, w: V)
    ensures m[k := v][k := w] == m[k := w]
  {
  }

  lemma RideEnds(m: Machine, tripId: Id, t3: int)
    requires MachineOk(m) && tripId in m.trips && m.trips[tripId].status == InProgress
    requires m.trips[tripId].driverId.Some?
    ensures
      Finished(m, Drive(m, tripId, Completed, t3), tripId,
               m.trips[tripId].(status := Completed, completedAt := Some(t3)))
  {
    Driven(m, tripId, Completed, t3);
  }

  lemma RideStarts(m: Machine, tripId: Id, t2: int, t3: int)
    requires MachineOk(m) && tripId in m.trips && m.trips[tripId].status == Arrived && m.trips[tripId].driverId.Some?
    ensures
      Finished(m, Drive(Drive(m, tripId, InProgress, t2), tripId, Completed, t3), tripId,
               m.trips[tripId].(status := Completed, startedAt := Some(t2), completedAt := Some(t3)))
  {
    var m2 := Drive(m, tripId, InProgress, t2);
    Driven(m, tripId, InProgress, t2);
    RideEnds(m2, tripId, t3);
    FinishedSince(m, m2, Drive(m2, tripId, Completed, t3), tripId, InProgress, t2,
                  m.trips[tripId].(status := Completed, startedAt := Some(t2), completedAt := Some(t3)));
  }

  function Reports(m: Machine, tripId: Id, t1: int, t2: int, t3: int): Machine {
    Drive(Drive(Drive(m, tripId, Arrived, t1), tripId, InProgress, t2), tripId, Completed, t3)
  }

  lemma RideArrives(m: Machine, tripId: Id, t1: int, t2: int, t3: int)
    requires MachineOk(m) && tripId in m.trips && m.trips[tripId].status in {Matched, EnRoute}
    requires m.trips[tripId].driverId.Some?
    ensures
      Finished(m, Reports(m, tripId, t1, t2, t3), tripId,
               m.trips[tripId].(status := Completed, arrivedAt := Some(t1), startedAt := Some(t2),
                                completedAt := Some(t3)))
  {
    var m1 := Drive(m, tripId, Arrived, t1);
    Driven(m, tripId, Arrived, t1);
    RideStarts(m1, tripId, t2, t3);
    FinishedSince(m, m1, Drive(Drive(m1, tripId, InProgress, t2), tripId, Completed, t3), tripId, Arrived, t1,
                  m.trips[tripId].(status := Completed, arrivedAt := Some(t1), startedAt := Some(t2),
                                   completedAt := Some(t3)));
  }

  /** A matched ride ends when its driver reports departure (or not), arrival, start and completion; rider and
      driver are then free for other trips, and the trip has every time stamp. */
  lemma RideCompletes(m: Machine, tripId: Id, departs: bool, t0: int, t1: int, t2: int, t3: int)
    requires MachineOk(m) && tripId in m.trips && m.trips[tripId].status == Matched
    ensures
      var m0 := if departs then Drive(m, tripId, EnRoute, t0) else m;
      m.trips[tripId].driverId.Some? &&
      Finished(m, Reports(m0, tripId, t1, t2, t3), tripId,
               m.trips[tripId].(status := Completed, arrivedAt := Some(t1), startedAt := Some(t2),
                                completedAt := Some(t3)))
  {
    assert TripOk(m, tripId);
    if departs {
      var m0 := Drive(m, tripId, EnRoute, t0);
      Driven(m, tripId, EnRoute, t0);
      RideArrives(m0, tripId, t1, t2, t3);
      FinishedSince(m, m0, Reports(m0, tripId, t1, t2, t3), tripId, EnRoute, t0,
                    m.trips[tripId].(status := Completed, arrivedAt := Some(t1), startedAt := Some(t2),
                                     completedAt := Some(t3)));
    } else {
      RideArrives(m, tripId, t1, t2, t3);
    }
  }

  /** A driver on the way or arrived can be taken off the trip, which is then as it was before it was matched. */
  lemma BackToMatching(m: Machine, tripId: Id, actor: Role, reason: Option<string>, now: int)
    requires MachineOk(m) && tripId in m.trips && m.trips[tripId].driverId.Some?
    ensures
      var (m', res) := Transition(m, tripId, Matching, actor, reason, None, now);
      && (res.Moved? <==> m.trips[tripId].status == EnRoute || m.trips[tripId].status == Arrived)
      && (res.Moved? ==> TakenOff(m, m', tripId))
  {
    var (m', res) := Transition(m, tripId, Matching, actor, reason, None, now);
    HasLeftMatching(m, tripId);
    MovesIff(m, tripId, Matching, actor, reason, None, now);
    if res.Moved? {
      MoveWrites(m, tripId, Matching, actor, reason, None, now);
      WrittenOff(m, m', tripId, actor, reason, now);
    }
  }

  lemma HasLeftMatching(m: Machine, tripId: Id)
    requires IndexesOk(m) && tripId in m.trips && m.trips[tripId].driverId.Some?
    ensures m.trips[tripId].status != Requested && m.trips[tripId].status != Matching
  {
    assert TripOk(m, tripId);
  }

  lemma WrittenOff(m: Machine, m': Machine, tripId: Id, actor: Role, reason: Option<string>, now: int)
    requires tripId in m.trips && m.trips[tripId].driverId.Some?
    requires Wrote(m, m', tripId, Matching, actor, reason, None, now)
    ensures TakenOff(m, m', tripId)
  {
  }

  predicate TakenOff(m: Machine, m': Machine, tripId: Id)
    requires tripId in m.trips && m.trips[tripId].driverId.Some?
  {
    var t := m.trips[tripId];
    && m'.trips == m.trips[tripId := t.(status := Matching, driverId := None, matchedAt := None, arrivedAt := None)]
    && m'.activeDrivers == m.activeDrivers - {t.driverId.value} && m'.activeRiders == m.activeRiders
  }

  /** The trip has ended like this, and its rider and driver are on no other. */
  predicate TripOver(m: Machine, m': Machine, tripId: Id, to: TripStatus, actor: Role)
    requires tripId in m.trips
  {
    var t := m.trips[tripId];
    && tripId in m'.trips && m'.trips[tripId].status == to && m'.trips[tripId].driverId == t.driverId
    && (to == TripStatus.Cancelled ==> m'.trips[tripId].cancelledBy == Some(actor))
    && t.riderId !in m'.activeRiders && (t.driverId.Some? ==> t.driverId.value !in m'.activeDrivers)
  }

  lemma WrittenOver(
      m: Machine, m': Machine, tripId: Id, to: TripStatus, actor: Role, reason: Option<string>, now: int)
    requires tripId in m.trips && (to == Completed || to == TripStatus.Cancelled)
    requires Wrote(m, m', tripId, to, actor, reason, None, now)
    ensures TripOver(m, m', tripId, to, actor)
  {
  }

  /** A move that may end a trip ends it. */
  lemma EndsTrip(m: Machine, tripId: Id, to: TripStatus, actor: Role, reason: Option<string>, now: int)
    requires MachineOk(m) && tripId in m.trips && MayMove(m.trips[tripId].status, to, actor)
    requires to == Completed || to == TripStatus.Cancelled
    ensures
      var (m', res) := Transition(m, tripId, to, actor, reason, None, now);
      res.Moved? && TripOver(m, m', tripId, to, actor)
  {
    MovesIff(m, tripId, to, actor, reason, None, now);
    MoveWrites(m, tripId, to, actor, reason, None, now);
    WrittenOver(m, Transition(m, tripId, to, actor, reason, None, now).0, tripId, to, actor, reason, now);
  }

  /** The rider can cancel until the ride begins, and only then. */
  lemma RiderCancelsIff(m: Machine, tripId: Id, reason: Option<string>, now: int)
    requires MachineOk(m) && tripId in m.trips
    ensures
      var (m', res) := Transition(m, tripId, TripStatus.Cancelled, Rider, reason, None, now);
      && (res.Moved? <==> m.trips[tripId].status !in {InProgress, Completed, TripStatus.Cancelled})
      && (res.Moved? ==> TripOver(m, m', tripId, TripStatus.Cancelled, Rider))
  {
    MovesIff(m, tripId, TripStatus.Cancelled, Rider, reason, None, now);
    if MayMove(m.trips[tripId].status, TripStatus.Cancelled, Rider) {
      EndsTrip(m, tripId, TripStatus.Cancelled, Rider, reason, now);
    }
  }

  // ---- Creation ----

  /** A request is taken exactly if it is new, its coordinates are on the globe and its rider is free; the new trip
      then waits for a match, and its rider is busy. */
  lemma CreatesIff(m: Machine, requestId: Id, riderId: Id, pickup: Pos, dropoff: Pos, newId: Id, now: int)
    requires MachineOk(m) && newId !in m.trips
    ensures
      var (m', res) := CreateTrip(m, requestId, riderId, pickup, dropoff, newId, now);
      && (res.Created? <==>
            && requestId !in m.requestToTrip && riderId !in m.activeRiders
            && -90.0 <= pickup.lat <= 90.0 && -180.0 <= pickup.lng <= 180.0
            && -90.0 <= dropoff.lat <= 90.0 && -180.0 <= dropoff.lng <= 180.0)
      && (res.Created? ==>
            && newId in m'.trips && m'.trips[newId].status == Requested && m'.trips[newId].driverId == None
            && m'.trips[newId].requestId == requestId && m'.trips[newId].riderId == riderId
            && m'.trips[newId].pickup == pickup && m'.trips[newId].dropoff == dropoff
            && m'.trips[newId].createdAt == now && m'.trips[newId].matchedAt == None
            && m'.activeRiders == m.activeRiders[riderId := newId] && m'.activeDrivers == m.activeDrivers
            && requestId in m'.requestToTrip && m'.requestToTrip[requestId] == newId)
      && (res.OtherRider? <==>
            && requestId in m.requestToTrip && m.requestToTrip[requestId] in m.trips
            && m.trips[m.requestToTrip[requestId]].riderId != riderId)
  {
    if requestId in m.requestToTrip {
      assert RequestOk(m, requestId);
    }
  }

  predicate Ended(m: Machine, id: Id) {
    id in m.trips && m.trips[id].status in {Completed, TripStatus.Cancelled}
  }

  predicate NotYounger(trips: map<Id, Trip>, a: Id, b: Id) {
    a in trips && b in trips ==> trips[a].createdAt <= trips[b].createdAt
  }

  ghost predicate ByAge(trips: map<Id, Trip>, order: seq<Id>) {
    forall i, j {:trigger order[i], order[j]} | 0 <= i < j < |order| :: NotYounger(trips, order[i], order[j])
  }

  /** The trips were created in the order in which they are kept. */
  ghost predicate AgeOk(m: Machine, now: int) {
    ByAge(m.trips, m.order) && forall id | id in m.trips :: m.trips[id].createdAt <= now
  }

  lemma {:induction false} FirstIsFirst(trips: map<Id, Trip>, order: seq<Id>, i: nat)
    requires i < |order| && order[i] in trips && Terminal(trips[order[i]].status)
    requires forall j | 0 <= j < i :: order[j] !in trips || !Terminal(trips[order[j]].status)
    ensures FirstTerminal(trips, order) == Some(order[i])
  {
    if i > 0 {
      FirstIsFirst(trips, order[1..], i - 1);
    }
  }

  /** The first ended trip in the order of the map; by the order's invariant no ended trip is older. */
  ghost predicate OldestEnded(m: Machine, id: Id) {
    exists i :: 0 <= i < |m.order| && m.order[i] == id && Ended(m, id) && forall j | 0 <= j < i :: !Ended(m, m.order[j])
  }

  lemma NoEndedOlder(m: Machine, id: Id, other: Id, now: int)
    requires OrderOk(m) && AgeOk(m, now) && OldestEnded(m, id) && Ended(m, other)
    ensures m.trips[id].createdAt <= m.trips[other].createdAt
  {
    var i :| 0 <= i < |m.order| && m.order[i] == id && forall j | 0 <= j < i :: !Ended(m, m.order[j]);
    assert other in m.order;
    var k :| 0 <= k < |m.order| && m.order[k] == other;
    assert i < k ==> NotYounger(m.trips, m.order[i], m.order[k]);
  }

  lemma {:induction false} SomeFirst(m: Machine, n: nat)
    requires n < |m.order| && Ended(m, m.order[n])
    ensures exists i :: 0 <= i <= n && Ended(m, m.order[i]) && forall j | 0 <= j < i :: !Ended(m, m.order[j])
  {
    if j :| 0 <= j < n && Ended(m, m.order[j]) {
      SomeFirst(m, j);
    }
  }

  /** A new trip displaces another exactly when 10000 trips are stored and one of them has ended; then it displaces
      the oldest of those, and with it its request. */
  lemma EvictsOldestEnded(
      m: Machine, requestId: Id, riderId: Id, pickup: Pos, dropoff: Pos, newId: Id, now: int, id: Id)
    requires MachineOk(m) && newId !in m.trips && id in m.trips
    requires CreateTrip(m, requestId, riderId, pickup, dropoff, newId, now).1.Created?
    ensures
      var m' := CreateTrip(m, requestId, riderId, pickup, dropoff, newId, now).0;
      && (id !in m'.trips <==> 10000 <= |m.trips| && OldestEnded(m, id))
      && (id in m'.trips ==> m'.trips[id] == m.trips[id])
      && (m.trips[id].requestId in m'.requestToTrip <==> id in m'.trips)
  {
    OldestIsFirst(m, id);
    EvictionForgets(m, id);
    CreationSpares(m, requestId, riderId, pickup, dropoff, newId, now, id);
  }

  lemma OldestIsFirst(m: Machine, id: Id)
    ensures FirstTerminal(m.trips, m.order) == Some(id) <==> OldestEnded(m, id)
  {
    FirstTerminalIsOne(m.trips, m.order);
    if OldestEnded(m, id) {
      var i :| 0 <= i < |m.order| && m.order[i] == id && forall j | 0 <= j < i :: !Ended(m, m.order[j]);
      FirstIsFirst(m.trips, m.order, i);
    } else if FirstTerminal(m.trips, m.order) == Some(id) {
      var n :| 0 <= n < |m.order| && m.order[n] == id;
      SomeFirst(m, n);
      var i :| 0 <= i <= n && Ended(m, m.order[i]) && forall j | 0 <= j < i :: !Ended(m, m.order[j]);
      FirstIsFirst(m.trips, m.order, i);
    }
  }

  lemma CreationSpares(m: Machine, requestId: Id, riderId: Id, pickup: Pos, dropoff: Pos, newId: Id, now: int, id: Id)
    requires IndexesOk(m) && newId !in m.trips && id in m.trips
    requires CreateTrip(m, requestId, riderId, pickup, dropoff, newId, now).1.Created?
    ensures
      var m', room := CreateTrip(m, requestId, riderId, pickup, dropoff, newId, now).0, MakeRoom(m);
      && (id in m'.trips <==> id in room.trips) && (id in room.trips ==> m'.trips[id] == room.trips[id])
      && (m.trips[id].requestId in m'.requestToTrip <==> m.trips[id].requestId in room.requestToTrip)
  {
    assert TripOk(m, id);
  }

  lemma EvictionForgets(m: Machine, id: Id)
    requires MachineOk(m) && id in m.trips
    ensures id !in MakeRoom(m).trips <==> 10000 <= |m.trips| && FirstTerminal(m.trips, m.order) == Some(id)
    ensures id in MakeRoom(m).trips ==> MakeRoom(m).trips[id] == m.trips[id]
    ensures m.trips[id].requestId in MakeRoom(m).requestToTrip <==> id in MakeRoom(m).trips
  {
    FirstTerminalIsOne(m.trips, m.order);
    assert TripOk(m, id);
    if MakeRoom(m) != m {
      assert TripOk(m, FirstTerminal(m.trips, m.order).value);
    }
  }

  lemma {:induction false} WithoutKeepsAge(trips: map<Id, Trip>, order: seq<Id>, id: Id)
    requires ByAge(trips, order)
    ensures ByAge(trips, Without(order, id)) && forall x | x in Without(order, id) :: x in order
  {
    if order != [] {
      var tail := order[1..];
      assert forall i | 0 <= i < |tail| :: tail[i] == order[i + 1];
      WithoutKeepsAge(trips, tail, id);
      if order[0] != id {
        forall x | x in tail ensures NotYounger(trips, order[0], x) {
          var k :| 0 <= k < |tail| && tail[k] == x;
        }
      }
    }
  }

  lemma ByAgeOfFewer(trips: map<Id, Trip>, trips': map<Id, Trip>, order: seq<Id>)
    requires ByAge(trips, order) && forall id | id in trips' ::
        id in trips && trips'[id].createdAt == trips[id].createdAt
    ensures ByAge(trips', order)
  {
    forall i, j | 0 <= i < j < |order| ensures NotYounger(trips', order[i], order[j]) {
      assert NotYounger(trips, order[i], order[j]);
    }
  }

  lemma RoomKeepsAge(m: Machine, now: int)
    requires AgeOk(m, now)
    ensures AgeOk(MakeRoom(m), now)
  {
    if MakeRoom(m) != m {
      var gone := FirstTerminal(m.trips, m.order).value;
      WithoutKeepsAge(m.trips, m.order, gone);
      ByAgeOfFewer(m.trips, m.trips - {gone}, Without(m.order, gone));
    }
  }

  lemma ByAgeAppend(trips: map<Id, Trip>, order: seq<Id>, t: Trip)
    requires ByAge(trips, order) && t.id !in order && forall id | id in trips :: trips[id].createdAt <= t.createdAt
    ensures ByAge(trips[t.id := t], order + [t.id])
  {
    var order' := order + [t.id];
    forall i, j | 0 <= i < j < |order'| ensures NotYounger(trips[t.id := t], order'[i], order'[j]) {
      assert j < |order| ==> NotYounger(trips, order[i], order[j]);
    }
  }

  /** Creation keeps the order by age. */
  lemma CreateKeepsAge(
      m: Machine, requestId: Id, riderId: Id, pickup: Pos, dropoff: Pos, newId: Id, before: int, now: int)
    requires OrderOk(m) && AgeOk(m, before) && before <= now && newId !in m.trips
    ensures AgeOk(CreateTrip(m, requestId, riderId, pickup, dropoff, newId, now).0, now)
  {
    if CreateTrip(m, requestId, riderId, pickup, dropoff, newId, now).1.Created? {
      RoomKeepsAge(m, before);
      MakeRoomOrderOk(m);
      AddedKeepsAge(MakeRoom(m), NewTrip(newId, requestId, riderId, pickup, dropoff, now), before, now);
    } else {
      assert CreateTrip(m, requestId, riderId, pickup, dropoff, newId, now).0 == m;
    }
  }

  lemma AddedKeepsAge(room: Machine, t: Trip, before: int, now: int)
    requires OrderOk(room) && AgeOk(room, before) && before <= now && t.id !in room.trips && t.createdAt == now
    ensures AgeOk(Added(room, t), now)
  {
    ByAgeAppend(room.trips, room.order, t);
  }

  /** So does every move. */
  lemma MoveKeepsAge(m: Machine, tripId: Id, to: TripStatus, actor: Role, reason: Option<string>, driver: Option<Id>,
    before: int, now: int)
    requires IndexesOk(m) && AgeOk(m, before) && before <= now
    ensures AgeOk(Transition(m, tripId, to, actor, reason, driver, now).0, now)
  {
    var m' := Transition(m, tripId, to, actor, reason, driver, now).0;
    SameAges(m, tripId, to, actor, reason, driver, now);
    ByAgeOfFewer(m.trips, m'.trips, m.order);
  }

  lemma SameAges(
      m: Machine, tripId: Id, to: TripStatus, actor: Role, reason: Option<string>, driver: Option<Id>, now: int)
    ensures
      var m' := Transition(m, tripId, to, actor, reason, driver, now).0;
      m'.order == m.order && forall id | id in m'.trips ::
        id in m.trips && m'.trips[id].createdAt == m.trips[id].createdAt
  {
    if tripId in m.trips {
      StampsAside(m, m.trips[tripId], to, actor, reason, if driver.Some? then driver.value
        else m.trips[tripId].id, now);
    }
  }

  lemma StampsAside(m: Machine, t: Trip, to: TripStatus, actor: Role, reason: Option<string>, driver: Id, now: int)
    ensures
      var (m', t') := Milestone(m, t, to, actor, reason, driver, now);
      m'.trips == m.trips && m'.order == m.order && t'.createdAt == t.createdAt
  {
  }
}
