/** The state machine itself: trip records changed in place, four maps and a bounded audit buffer.
    Each method does to the machine's value what TripModel says. */
module TripStateMachine {
  import opened Geometry
  import opened RegistryModel
  import opened TripModel

  class TripRecord {
    const id: Id
    const requestId: Id
    const riderId: Id
    const pickup: Pos
    const dropoff: Pos
    const createdAt: int
    var driverId: Option<Id>
    var status: TripStatus
    var matchedAt: Option<int>
    var arrivedAt: Option<int>
    var startedAt: Option<int>
    var completedAt: Option<int>
    var cancelledAt: Option<int>
    var cancellationReason: Option<string>
    var cancelledBy: Option<Role>

    constructor (id: Id, requestId: Id, riderId: Id, pickup: Pos, dropoff: Pos, now: int)
      ensures this.id == id && Value() == NewTrip(id, requestId, riderId, pickup, dropoff, now)
    {
      this.id, this.requestId, this.riderId, this.pickup, this.dropoff, createdAt :=
        id, requestId, riderId, pickup, dropoff, now;
      driverId, status := None, Requested;
      matchedAt, arrivedAt, startedAt, completedAt, cancelledAt := None, None, None, None, None;
      cancellationReason, cancelledBy := None, None;
    }

    ghost function Value(): Trip
      reads this
    {
      Trip(id, requestId, riderId, driverId, status, pickup, dropoff, createdAt, matchedAt, arrivedAt, startedAt,
           completedAt, cancelledAt, cancellationReason, cancelledBy)
    }
  }

  class TripStateMachine {
    var trips: map<Id, TripRecord>
    var order: seq<Id>              // the key order of `trips`
    var requestToTrip: map<Id, Id>
    var activeRiderTrips: map<Id, Id>
    var activeDriverTrips: map<Id, Id>
    var auditEvents: seq<Event>
    ghost var history: seq<Event>   // every event so far ...
    ghost var peak: nat             // ... and the most trips ever under way together

    ghost predicate Valid()
      reads this, trips.Values
    {
      forall id | id in trips :: trips[id].id == id
    }

    ghost function Records(): map<Id, Trip>
      reads this`trips, trips.Values
    {
      map id | id in trips :: trips[id].Value()
    }

    ghost function View(): Machine
      reads this, trips.Values
    {
      Machine(Records(), order, requestToTrip, activeRiderTrips, activeDriverTrips, auditEvents, history, peak)
    }

    constructor ()
      ensures Valid() && View() == EMPTY
    {
      trips, order, requestToTrip, activeRiderTrips, activeDriverTrips := map[], [], map[], map[], map[];
      auditEvents, history, peak := [], [], 0;
    }

    method RecordEvent(event: Event)
      requires Valid()
      modifies this`auditEvents, this`history
      ensures Valid() && View() == Record(old(View()), event)
    {
      if |auditEvents| >= AUDIT_CAPACITY {
        auditEvents := auditEvents[1..];
      }
      auditEvents := auditEvents + [event];
      history := history + [event];
    }

    // ---- Creating a trip ----

    method CreateTrip(requestId: Id, riderId: Id, pickup: Pos, dropoff: Pos, newId: Id, now: int)
      returns (res: CreateResult)
      requires Valid()
      modifies this
      ensures Valid()
      ensures (View(), res) == TripModel.CreateTrip(old(View()), requestId, riderId, pickup, dropoff, newId, now)
      ensures fresh(trips.Values - old(trips.Values))
    {
      if requestId in requestToTrip {
        var existing := requestToTrip[requestId];
        if existing !in trips {
          return RecordMissing;
        }
        return if trips[existing].riderId != riderId then OtherRider else Replayed(existing);
      }
      if !ValidGeoPoint(pickup) || !ValidGeoPoint(dropoff) {
        return BadCoordinates;
      }
      if riderId in activeRiderTrips {
        return RiderBusy;
      }
      Store(requestId, riderId, pickup, dropoff, newId, now);
      return Created(newId);
    }

    method Store(requestId: Id, riderId: Id, pickup: Pos, dropoff: Pos, newId: Id, now: int)
      requires Valid()
      modifies this
      ensures Valid() && fresh(trips.Values - old(trips.Values))
      ensures
        View() == Record(Added(MakeRoom(old(View())), NewTrip(newId, requestId, riderId, pickup, dropoff, now)),
                         Event(newId, requestId, Requested, Requested, Rider, now, None))
    {
      var trip := new TripRecord(newId, requestId, riderId, pickup, dropoff, now);
      EvictOldestTerminal();
      assert trip.Value() == NewTrip(newId, requestId, riderId, pickup, dropoff, now)
        && View() == MakeRoom(old(View()));
      Add(trip);
      RecordEvent(Event(newId, requestId, Requested, Requested, Rider, now, None));
    }

    /** Makes room for one more trip by dropping the oldest one that has ended. */
    method EvictOldestTerminal()
      requires Valid()
      modifies this`trips, this`order, this`requestToTrip
      ensures Valid() && trips.Values <= old(trips.Values) && View() == MakeRoom(old(View()))
    {
      SameSize();
      if TRIP_CAPACITY <= |trips| {
        var i := FindTerminal();
        if i < |order| {
          Drop(i);
        }
      }
    }

    method Drop(i: nat)
      requires Valid() && i < |order| && order[i] in trips && order[i] !in order[..i]
      modifies this`trips, this`order, this`requestToTrip
      ensures Valid() && trips.Values <= old(trips.Values)
      ensures
        var m, gone := old(View()), old(order[i]);
        View() == m.(trips := m.trips - {gone}, order := Without(m.order, gone), requestToTrip :=
          m.requestToTrip - {m.trips[gone].requestId})
    {
      DropAt(order, i);
      requestToTrip := requestToTrip - {trips[order[i]].requestId};
      trips := trips - {order[i]};
      order := order[..i] + order[i + 1..];
      assert Records() == old(Records()) - {old(order[i])};
    }

    lemma SameSize()
      ensures |trips| == |Records()|
    {
      assert trips.Keys == Records().Keys;
      assert |trips.Keys| == |Records().Keys|;
    }

    /** The position of the oldest ended trip, or the end. */
    method FindTerminal() returns (i: nat)
      ensures i <= |order|
      ensures FirstTerminal(Records(), order) == if i < |order| then Some(order[i]) else None
      ensures i < |order| ==> order[i] in trips && order[i] !in order[..i]
    {
      i := 0;
      assert order[0..] == order;
      while i < |order| && !(order[i] in trips && Terminal(trips[order[i]].status))
        invariant i <= |order| && FirstTerminal(Records(), order[i..]) == FirstTerminal(Records(), order)
        invariant forall j | 0 <= j < i :: !(order[j] in trips && Terminal(trips[order[j]].status))
      {
        assert order[i..][1..] == order[i + 1..];
        i := i + 1;
      }
    }

    static lemma {:induction false} DropAt(order: seq<Id>, i: nat)
      requires i < |order| && order[i] !in order[..i]
      ensures Without(order, order[i]) == order[..i] + order[i + 1..]
    {
      if i > 0 {
        assert order[0] == order[..i][0];
        assert forall x | x in order[1..][..i - 1] :: x in order[..i];
        DropAt(order[1..], i - 1);
        assert order[1..][..i - 1] == order[1..i];
      }
    }

    method Add(trip: TripRecord)
      requires Valid()
      modifies this`trips, this`order, this`requestToTrip, this`activeRiderTrips, this`peak
      ensures Valid() && View() == Added(old(View()), trip.Value()) && trips.Values <= old(trips.Values) + {trip}
    {
      AddRecord(trip);
      AddIndexes(trip);
    }

    method AddIndexes(trip: TripRecord)
      modifies this`requestToTrip, this`activeRiderTrips, this`peak
      ensures Records() == old(Records()) && requestToTrip == old(requestToTrip)[trip.requestId := trip.id]
      ensures activeRiderTrips == old(activeRiderTrips)[trip.riderId := trip.id]
      ensures peak == if old(peak) < |activeRiderTrips| then |activeRiderTrips| else old(peak)
    {
      requestToTrip := requestToTrip[trip.requestId := trip.id];
      activeRiderTrips := activeRiderTrips[trip.riderId := trip.id];
      peak := if peak < |activeRiderTrips| then |activeRiderTrips| else peak;
    }

    method AddRecord(trip: TripRecord)
      requires Valid()
      modifies this`trips, this`order
      ensures Valid() && trips.Values <= old(trips.Values) + {trip} && order == old(order) + [trip.id]
      ensures Records() == old(Records())[trip.id := trip.Value()]
    {
      trips, order := trips[trip.id := trip], order + [trip.id];
    }

    // ---- Transitions ----

    /** Writing one record changes one entry of the machine's value. */
    twostate lemma WroteTrip(trip: TripRecord)
      requires old(Valid()) && trips == old(trips) && trip.id in trips && trips[trip.id] == trip
      requires forall t | t in trips.Values && t != trip :: unchanged(t)
      ensures Valid() && Records() == old(Records())[trip.id := trip.Value()]
    {
      forall id | id in trips && id != trip.id ensures trips[id].Value() == old(trips[id].Value()) {
        assert trips[id] in trips.Values && trips[id] != trip;
      }
    }

    method Transition(
        tripId: Id, target: TripStatus, triggeredBy: Role, reason: Option<string>, driver: Option<Id>, now: int)
      returns (res: TransitionResult)
      requires Valid()
      modifies this, trips.Values
      ensures Valid() && trips == old(trips)
      ensures (View(), res) == TripModel.Transition(old(View()), tripId, target, triggeredBy, reason, driver, now)
    {
      if tripId !in trips {
        res := NotFound;
      } else {
        var trip := trips[tripId];
        var refusal := Refusal(trip.id, trip.status, activeDriverTrips, target, triggeredBy, driver);
        RefusalExact(View(), tripId, target, triggeredBy, reason, driver, now);
        if refusal.Some? {
          res := refusal.value;
        } else {
          res := Move(trip, target, triggeredBy, reason, driver, now);
        }
      }
    }

    method Move(
        trip: TripRecord, target: TripStatus, triggeredBy: Role, reason: Option<string>, driver: Option<Id>, now: int)
      returns (res: TransitionResult)
      requires Valid() && trip.id in trips && trips[trip.id] == trip && (target == Matched ==> driver.Some?)
      modifies this`activeRiderTrips, this`activeDriverTrips, this`auditEvents, this`history, trip
      ensures Valid()
      ensures
        var m, t := old(View()), old(trip.Value());
        var (indexed, stamped) :=
          Milestone(m, t, target, triggeredBy, reason, if driver.Some? then driver.value else t.id, now);
        var e := Event(t.id, t.requestId, t.status, target, triggeredBy, now, driver);
        View() == Record(indexed.(trips := indexed.trips[t.id := stamped.(status := target)]), e) && res == Moved(e)
    {
      var current := trip.status;
      Stamp(trip, target, triggeredBy, reason, if driver.Some? then driver.value else trip.id, now);
      var event := Event(trip.id, trip.requestId, current, target, triggeredBy, now, driver);
      RecordEvent(event);
      res := Moved(event);
    }

    /** The milestone fields and indexes of a move, and the new status. */
    method Stamp(trip: TripRecord, target: TripStatus, triggeredBy: Role, reason: Option<string>, driver: Id, now: int)
      requires Valid() && trip.id in trips && trips[trip.id] == trip
      modifies this`activeRiderTrips, this`activeDriverTrips, trip
      ensures Valid()
      ensures
        var (indexed, stamped) := Milestone(old(View()), old(trip.Value()), target, triggeredBy, reason, driver, now);
        View() == indexed.(trips := indexed.trips[trip.id := stamped.(status := target)])
    {
      match target {
        case Matching =>
          if trip.driverId.Some? {
            activeDriverTrips := activeDriverTrips - {trip.driverId.value};
            trip.driverId := None;
          }
          trip.matchedAt, trip.arrivedAt := None, None;
        case Matched =>
          trip.matchedAt, trip.driverId := Some(now), Some(driver);
          activeDriverTrips := activeDriverTrips[driver := trip.id];
        case Arrived => trip.arrivedAt := Some(now);
        case InProgress => trip.startedAt := Some(now);
        case Completed =>
          trip.completedAt := Some(now);
          ClearActiveIndices(trip);
        case Cancelled =>
          trip.cancelledAt, trip.cancelledBy := Some(now), Some(triggeredBy);
          trip.cancellationReason := if reason == Some("") then None else reason;
          ClearActiveIndices(trip);
        case _ =>
      }
      trip.status := target;
      WroteTrip(trip);
    }

    method ClearActiveIndices(trip: TripRecord)
      modifies this`activeRiderTrips, this`activeDriverTrips
      ensures activeRiderTrips == old(activeRiderTrips) - {trip.riderId}
      ensures activeDriverTrips == if trip.driverId.Some? then old(activeDriverTrips) - {trip.driverId.value}
          else old(activeDriverTrips)
    {
      activeRiderTrips := activeRiderTrips - {trip.riderId};
      if trip.driverId.Some? {
        activeDriverTrips := activeDriverTrips - {trip.driverId.value};
      }
    }
  }

  /** The checks before a move, in their order. */
  function Refusal(
      id: Id, status: TripStatus, drivers: map<Id, Id>, to: TripStatus, actor: Role, driver: Option<Id>)
    : Option<TransitionResult>
  {
    if status == to then Some(Unchanged)
    else if !Allowed(status, to) then Some(Invalid)
    else if !Authorized(status, to, actor) then Some(Forbidden)
    else if to == Matched && (driver == None || Blank(driver.value)) then Some(NoDriver)
    else if to == Matched && driver.value in drivers && drivers[driver.value] != id then Some(DoubleBooked)
    else None
  }

  lemma RefusalExact(
      m: Machine, tripId: Id, to: TripStatus, actor: Role, reason: Option<string>, driver: Option<Id>, now: int)
    requires tripId in m.trips
    ensures
      var t := m.trips[tripId];
      match Refusal(t.id, t.status, m.activeDrivers, to, actor, driver)
      case Some(refusal) => TripModel.Transition(m, tripId, to, actor, reason, driver, now) == (m, refusal)
      case None =>
        var (indexed, stamped) := Milestone(m, t, to, actor, reason, if driver.Some? then driver.value else t.id, now);
        var e := Event(t.id, t.requestId, t.status, to, actor, now, driver);
        && (to == Matched ==> driver.Some?)
        && TripModel.Transition(m, tripId, to, actor, reason, driver, now)
           == (Record(indexed.(trips := indexed.trips[tripId := stamped.(status := to)]), e), Moved(e))
  {
  }
}
