/** The life of a trip: the transition matrix, the machine's indexes and its audit log. */
module TripModel {
  import opened Geometry
  import opened RegistryModel

  datatype TripStatus = Requested | Matching | Matched | EnRoute | Arrived | InProgress | Completed | Cancelled

  datatype Role = Rider | Driving | System

  datatype Trip = Trip(
    id: Id, requestId: Id, riderId: Id, driverId: Option<Id>, status: TripStatus, pickup: Pos, dropoff: Pos,
    createdAt: int, matchedAt: Option<int>, arrivedAt: Option<int>, startedAt: Option<int>,
    completedAt: Option<int>, cancelledAt: Option<int>, reason: Option<string>, cancelledBy: Option<Role>)

  datatype Event = Event(tripId: Id, requestId: Id, from: TripStatus, to: TripStatus, actor: Role, timestamp: int,
    driverId: Option<Id>)

  /** The machine's maps; `order` is the insertion order of `trips`. The full history and the largest
      number of simultaneously active trips are not stored by the program, only spoken about. */
  datatype Machine = Machine(
    trips: map<Id, Trip>, order: seq<Id>, requestToTrip: map<Id, Id>, activeRiders: map<Id, Id>,
      activeDrivers: map<Id, Id>,
    audit: seq<Event>, history: seq<Event>, peak: nat)

  const EMPTY := Machine(map[], [], map[], map[], map[], [], [], 0)

  const TRIP_CAPACITY := 10000
  const AUDIT_CAPACITY := 2000

  predicate Allowed(from: TripStatus, to: TripStatus) {
    match from
    case Requested => to == Matching || to == Cancelled
    case Matching => to == Matched || to == Cancelled
    case Matched => to == EnRoute || to == Arrived || to == Cancelled
    case EnRoute => to == Arrived || to == Matching || to == Cancelled
    case Arrived => to == InProgress || to == Matching || to == Cancelled
    case InProgress => to == Completed
    case Completed => false
    case Cancelled => false
  }

  predicate Terminal(s: TripStatus) {
    s == Completed || s == Cancelled
  }

  function Record(m: Machine, e: Event): Machine {
    var kept := if |m.audit| >= AUDIT_CAPACITY then m.audit[1..] else m.audit;
    m.(audit := kept + [e], history := m.history + [e])
  }

  // ---- Creating a trip ----

  datatype CreateResult =
    Created(tripId: Id) | Replayed(tripId: Id) | OtherRider | RecordMissing | BadCoordinates | RiderBusy
  {
    predicate Success() { Created? || Replayed? }
  }

  predicate ValidGeoPoint(p: Pos) {
    -90.0 <= p.lat <= 90.0 && -180.0 <= p.lng <= 180.0
  }

  /** The oldest stored trip that has ended. */
  function FirstTerminal(trips: map<Id, Trip>, order: seq<Id>): Option<Id> {
    if order == [] then None
    else if order[0] in trips && Terminal(trips[order[0]].status) then Some(order[0])
    else FirstTerminal(trips, order[1..])
  }

  function Without(order: seq<Id>, id: Id): seq<Id> {
    if order == [] then []
    else if order[0] == id then order[1..]
    else [order[0]] + Without(order[1..], id)
  }

  function MakeRoom(m: Machine): Machine {
    var oldest := FirstTerminal(m.trips, m.order);
    if |m.trips| < TRIP_CAPACITY || oldest == None || oldest.value !in m.trips then m
    else
      m.(trips := m.trips - {oldest.value}, order := Without(m.order, oldest.value),
         requestToTrip := m.requestToTrip - {m.trips[oldest.value].requestId})
  }

  function NewTrip(id: Id, requestId: Id, riderId: Id, pickup: Pos, dropoff: Pos, now: int): Trip {
    Trip(id, requestId, riderId, None, Requested, pickup, dropoff, now, None, None, None, None, None, None, None)
  }

  function Added(m: Machine, t: Trip): Machine {
    var riders := m.activeRiders[t.riderId := t.id];
    m.(trips := m.trips[t.id := t],
       order := m.order + [t.id],
       requestToTrip := m.requestToTrip[t.requestId := t.id],
       activeRiders := riders,
       peak := if m.peak < |riders| then |riders| else m.peak)
  }

  function CreateTrip(
      m: Machine, requestId: Id, riderId: Id, pickup: Pos, dropoff: Pos, newId: Id, now: int): (Machine, CreateResult) {
    if requestId in m.requestToTrip then
      var existing := m.requestToTrip[requestId];
      if existing !in m.trips then (m, RecordMissing)
      else if m.trips[existing].riderId != riderId then (m, OtherRider)
      else (m, Replayed(existing))
    else if !ValidGeoPoint(pickup) || !ValidGeoPoint(dropoff) then (m, BadCoordinates)
    else if riderId in m.activeRiders then (m, RiderBusy)
    else
      var e := Event(newId, requestId, Requested, Requested, Rider, now, None);
      (Record(Added(MakeRoom(m), NewTrip(newId, requestId, riderId, pickup, dropoff, now)), e), Created(newId))
  }

  // ---- Transitions ----

  datatype TransitionResult =
    NotFound | Invalid | Forbidden | NoDriver | DoubleBooked | Unchanged | Moved(event: Event)
  {
    predicate Success() { Unchanged? || Moved? }
  }

  predicate IsSpace(c: char) {
    c in " \t\n\r\U{000B}\U{000C}\U{00A0}\U{1680}\U{2028}\U{2029}\U{202F}\U{205F}\U{3000}\U{FEFF}"
      || '\U{2000}' <= c <= '\U{200A}'
  }

  /** A driver id the machine does not accept: empty once trimmed. */
  predicate Blank(id: Id) {
    forall i | 0 <= i < |id.name| :: IsSpace(id.name[i])
  }

  predicate Authorized(from: TripStatus, to: TripStatus, actor: Role) {
    && (to == Arrived || to == InProgress || to == Completed ==> actor == Driving)
    && (to == Cancelled && (from == Requested || from == Matching) ==> actor != Driving)
  }

  function ClearActive(m: Machine, t: Trip): Machine {
    m.(activeRiders := m.activeRiders - {t.riderId},
       activeDrivers := if t.driverId.Some? then m.activeDrivers - {t.driverId.value} else m.activeDrivers)
  }

  /** The milestone fields and indexes a move sets; the status follows afterwards. */
  function Milestone(
      m: Machine, t: Trip, to: TripStatus, actor: Role, reason: Option<string>, driver: Id, now: int): (Machine, Trip) {
    match to
    case Matching =>
      (if t.driverId.Some? then m.(activeDrivers := m.activeDrivers - {t.driverId.value}) else m,
       t.(driverId := None, matchedAt := None, arrivedAt := None))
    case Matched =>
      (m.(activeDrivers := m.activeDrivers[driver := t.id]), t.(matchedAt := Some(now), driverId := Some(driver)))
    case Arrived => (m, t.(arrivedAt := Some(now)))
    case InProgress => (m, t.(startedAt := Some(now)))
    case Completed => (ClearActive(m, t), t.(completedAt := Some(now)))
    case Cancelled =>
      (ClearActive(m, t),
       t.(cancelledAt := Some(now), reason := if reason == Some("") then None else reason, cancelledBy := Some(actor)))
    case _ => (m, t)
  }

  function Transition(
      m: Machine, tripId: Id, to: TripStatus, actor: Role, reason: Option<string>, driver: Option<Id>, now: int)
    : (Machine, TransitionResult)
  {
    if tripId !in m.trips then (m, NotFound)
    else
      var t := m.trips[tripId];
      if t.status == to then (m, Unchanged)
      else if !Allowed(t.status, to) then (m, Invalid)
      else if !Authorized(t.status, to, actor) then (m, Forbidden)
      else if to == Matched && (driver == None || Blank(driver.value)) then (m, NoDriver)
      else if to == Matched && driver.value in m.activeDrivers && m.activeDrivers[driver.value] != t.id then
        (m, DoubleBooked)
      else
        var (indexed, stamped) := Milestone(m, t, to, actor, reason, if driver.Some? then driver.value else t.id, now);
        var e := Event(t.id, t.requestId, t.status, to, actor, now, driver);
        (Record(indexed.(trips := indexed.trips[tripId := stamped.(status := to)]), e), Moved(e))
  }

  function StatusOf(m: Machine, tripId: Id): Option<TripStatus> {
    if tripId in m.trips then Some(m.trips[tripId].status) else None
  }

  function TripByRequest(m: Machine, requestId: Id): Option<Id> {
    if requestId in m.requestToTrip && m.requestToTrip[requestId] in m.trips then Some(m.requestToTrip[requestId])
      else None
  }

  // ---- What holds in every state of the machine ----

  predicate Active(t: Trip) {
    !Terminal(t.status)
  }

  predicate TripOk(m: Machine, id: Id)
    requires id in m.trips
  {
    var t := m.trips[id];
    && t.id == id
    && t.requestId in m.requestToTrip && m.requestToTrip[t.requestId] == id
    && (Active(t) ==> t.riderId in m.activeRiders && m.activeRiders[t.riderId] == id)
    && (Active(t) && t.driverId.Some? ==>
      t.driverId.value in m.activeDrivers && m.activeDrivers[t.driverId.value] == id)
    && (t.status == Requested || t.status == Matching ==> t.driverId == None)
    && (t.status in {Matched, EnRoute, Arrived, InProgress, Completed} ==> t.driverId.Some?)
  }

  predicate RiderOk(m: Machine, rider: Id)
    requires rider in m.activeRiders
  {
    var id := m.activeRiders[rider];
    id in m.trips && Active(m.trips[id]) && m.trips[id].riderId == rider
  }

  predicate DriverOf(m: Machine, driver: Id)
    requires driver in m.activeDrivers
  {
    var id := m.activeDrivers[driver];
    id in m.trips && Active(m.trips[id]) && m.trips[id].driverId == Some(driver)
  }

  predicate RequestOk(m: Machine, request: Id)
    requires request in m.requestToTrip
  {
    var id := m.requestToTrip[request];
    id in m.trips && m.trips[id].requestId == request
  }

  /** The maps say the same thing as the trips themselves. */
  ghost predicate IndexesOk(m: Machine) {
    && (forall id {:trigger TripOk(m, id)} | id in m.trips :: TripOk(m, id))
    && (forall rider {:trigger RiderOk(m, rider)} | rider in m.activeRiders :: RiderOk(m, rider))
    && (forall driver {:trigger DriverOf(m, driver)} | driver in m.activeDrivers :: DriverOf(m, driver))
    && (forall request {:trigger RequestOk(m, request)} | request in m.requestToTrip :: RequestOk(m, request))
  }

  ghost predicate OrderOk(m: Machine) {
    && (forall i, j | 0 <= i < j < |m.order| :: m.order[i] != m.order[j])
    && (forall id :: id in m.order <==> id in m.trips)
  }

  ghost predicate SizeOk(m: Machine) {
    && |m.activeRiders| <= m.peak
    && |m.trips| <= (if TRIP_CAPACITY < m.peak then m.peak else TRIP_CAPACITY)
  }

  // ---- The log ----

  function LastN(h: seq<Event>, n: nat): seq<Event> {
    if |h| <= n then h else h[|h| - n..]
  }

  /** The status a trip has according to the log. */
  function Replay(h: seq<Event>, id: Id): Option<TripStatus> {
    if h == [] then None
    else if h[|h| - 1].tripId == id then Some(h[|h| - 1].to)
    else Replay(h[..|h| - 1], id)
  }

  /** An event continues the log of its trip along an edge its actor may take, or begins it. */
  predicate Continues(h: seq<Event>, e: Event) {
    match Replay(h, e.tripId)
    case None => e.from == Requested && e.to == Requested
    case Some(s) => e.from == s && Allowed(e.from, e.to) && Authorized(e.from, e.to, e.actor)
  }

  ghost predicate Chained(h: seq<Event>) {
    forall i {:trigger Continues(h[..i], h[i])} | 0 <= i < |h| :: Continues(h[..i], h[i])
  }

  ghost predicate LogOk(m: Machine) {
    && m.audit == LastN(m.history, AUDIT_CAPACITY) && Chained(m.history)
    && forall id {:trigger Replay(m.history, id)} | id in m.trips :: Replay(m.history, id) == Some(m.trips[id].status)
  }

  ghost predicate MachineOk(m: Machine) {
    IndexesOk(m) && OrderOk(m) && SizeOk(m) && LogOk(m)
  }

  // ---- Every operation keeps it ----

  lemma ReplayAppend(h: seq<Event>, e: Event, id: Id)
    ensures Replay(h + [e], id) == if id == e.tripId then Some(e.to) else Replay(h, id)
  {
    assert (h + [e])[..|h|] == h;
  }

  lemma ChainedAppend(h: seq<Event>, e: Event)
    requires Chained(h) && Continues(h, e)
    ensures Chained(h + [e])
  {
    var h' := h + [e];
    forall i | 0 <= i < |h'| ensures Continues(h'[..i], h'[i]) {
      if i < |h| {
        assert h'[..i] == h[..i] && Continues(h[..i], h[i]);
      } else {
        assert h'[..i] == h;
      }
    }
  }

  lemma AuditWindow(m: Machine, e: Event)
    requires m.audit == LastN(m.history, AUDIT_CAPACITY)
    ensures Record(m, e).audit == LastN(Record(m, e).history, AUDIT_CAPACITY)
  {
  }

  lemma RecordLog(m: Machine, e: Event)
    requires m.audit == LastN(m.history, AUDIT_CAPACITY) && Chained(m.history) && Continues(m.history, e)
    ensures Record(m, e).audit == LastN(Record(m, e).history, AUDIT_CAPACITY) && Chained(Record(m, e).history)
    ensures Replay(Record(m, e).history, e.tripId) == Some(e.to)
    ensures forall id {:trigger Replay(Record(m, e).history, id)} | id != e.tripId ::
        Replay(Record(m, e).history, id) == Replay(m.history, id)
  {
    AuditWindow(m, e);
    ChainedAppend(m.history, e);
    forall id ensures Replay(m.history + [e], id) == if id == e.tripId then Some(e.to) else Replay(m.history, id) {
      ReplayAppend(m.history, e, id);
    }
  }

  lemma {:induction false} FirstTerminalIsOne(trips: map<Id, Trip>, order: seq<Id>)
    ensures FirstTerminal(trips, order).Some? ==>
              var id := FirstTerminal(trips, order).value; id in order && id in trips && Terminal(trips[id].status)
    ensures FirstTerminal(trips, order) == None ==>
        forall id | id in order && id in trips :: !Terminal(trips[id].status)
  {
    if order != [] {
      FirstTerminalIsOne(trips, order[1..]);
      assert forall id | id in order :: id == order[0] || id in order[1..];
    }
  }

  lemma {:induction false} WithoutOrder(order: seq<Id>, id: Id)
    requires forall i, j | 0 <= i < j < |order| :: order[i] != order[j]
    ensures forall i, j | 0 <= i < j < |Without(order, id)| :: Without(order, id)[i] != Without(order, id)[j]
    ensures forall x :: x in Without(order, id) <==> x in order && x != id
  {
    if order != [] {
      WithoutOrder(order[1..], id);
      var rest := Without(order[1..], id);
      assert order == [order[0]] + order[1..];
      assert order[0] !in order[1..];
      if order[0] != id {
        forall i | 0 <= i < |rest| ensures rest[i] != order[0] {
          assert rest[i] in order[1..];
        }
      }
    }
  }

  /** If no stored trip has ended, there are no more stored trips than busy riders. */
  lemma AllActiveCount(m: Machine)
    requires IndexesOk(m) && forall id | id in m.trips :: Active(m.trips[id])
    ensures |m.trips| <= |m.activeRiders|
  {
    forall id | id in m.trips ensures m.trips[id].riderId in m.activeRiders.Keys
      && m.activeRiders[m.trips[id].riderId] == id {
      assert TripOk(m, id);
    }
    InjectionBound(m.trips.Keys, m.activeRiders, map id | id in m.trips :: m.trips[id].riderId);
  }

  lemma {:induction false} InjectionBound(ids: set<Id>, back: map<Id, Id>, to: map<Id, Id>)
    requires forall id | id in ids :: id in to && to[id] in back && back[to[id]] == id
    ensures |ids| <= |back|
    decreases |ids|
  {
    if ids != {} {
      var id :| id in ids;
      InjectionBound(ids - {id}, back - {to[id]}, to);
      assert back.Keys == (back - {to[id]}).Keys + {to[id]};
      assert |back.Keys| == |(back - {to[id]}).Keys| + 1;
    }
  }

  /** Forgetting a trip that has ended keeps the maps in step. */
  lemma ForgetIndexesOk(m: Machine, r: Machine, gone: Id)
    requires IndexesOk(m) && gone in m.trips && !Active(m.trips[gone])
    requires r.trips == m.trips - {gone} && r.requestToTrip == m.requestToTrip - {m.trips[gone].requestId}
    requires r.activeRiders == m.activeRiders && r.activeDrivers == m.activeDrivers
    ensures IndexesOk(r)
  {
    assert TripOk(m, gone);
    forall id | id in r.trips ensures TripOk(r, id) {
      assert TripOk(m, id);
    }
    forall rider | rider in r.activeRiders ensures RiderOk(r, rider) {
      assert RiderOk(m, rider);
    }
    forall driver | driver in r.activeDrivers ensures DriverOf(r, driver) {
      assert DriverOf(m, driver);
    }
    forall request | request in r.requestToTrip ensures RequestOk(r, request) {
      assert RequestOk(m, request);
    }
  }

  lemma MakeRoomIndexesOk(m: Machine)
    requires IndexesOk(m)
    ensures IndexesOk(MakeRoom(m))
    ensures forall id | id in m.trips && Active(m.trips[id]) :: id in MakeRoom(m).trips
  {
    FirstTerminalIsOne(m.trips, m.order);
    if MakeRoom(m) != m {
      ForgetIndexesOk(m, MakeRoom(m), FirstTerminal(m.trips, m.order).value);
    }
  }

  lemma MakeRoomOrderOk(m: Machine)
    requires OrderOk(m)
    ensures OrderOk(MakeRoom(m))
  {
    if MakeRoom(m) != m {
      WithoutOrder(m.order, FirstTerminal(m.trips, m.order).value);
    }
  }

  lemma MapShrinks<K, V>(m: map<K, V>, k: K)
    requires k in m
    ensures |m - {k}| == |m| - 1
  {
    assert m.Keys == (m - {k}).Keys + {k};
    assert |m.Keys| == |(m - {k}).Keys| + 1;
  }

  lemma MapGrows<K, V>(m: map<K, V>, k: K, v: V)
    requires k !in m
    ensures |m[k := v]| == |m| + 1
  {
    MapShrinks(m[k := v], k);
    assert m[k := v] - {k} == m;
  }

  lemma MapKeeps<K, V>(m: map<K, V>, k: K, v: V)
    requires k in m
    ensures |m[k := v]| == |m|
  {
    MapShrinks(m[k := v], k);
    MapShrinks(m, k);
    assert m[k := v] - {k} == m - {k};
  }

  /** Once the store is full, it only stays full of trips that are still under way. */
  lemma MakeRoomSize(m: Machine)
    requires IndexesOk(m) && OrderOk(m) && SizeOk(m)
    ensures |MakeRoom(m).trips| < TRIP_CAPACITY || |MakeRoom(m).trips| < m.peak
        || |MakeRoom(m).trips| <= |m.activeRiders|
  {
    FirstTerminalIsOne(m.trips, m.order);
    var oldest := FirstTerminal(m.trips, m.order);
    if TRIP_CAPACITY <= |m.trips| {
      if oldest == None {
        AllActiveCount(m);
      } else {
        MapShrinks(m.trips, oldest.value);
      }
    }
  }

  lemma CreateIndexesOk(room: Machine, m': Machine, t: Trip)
    requires IndexesOk(room) && t.id !in room.trips && t.requestId !in room.requestToTrip
    requires t.riderId !in room.activeRiders
    requires t.driverId == None && t.status == Requested && m'.trips == room.trips[t.id := t]
    requires m'.requestToTrip == room.requestToTrip[t.requestId := t.id]
    requires m'.activeRiders == room.activeRiders[t.riderId := t.id]
    requires m'.activeDrivers == room.activeDrivers
    ensures IndexesOk(m')
  {
    forall id | id in m'.trips ensures TripOk(m', id) {
      assert id != t.id ==> TripOk(room, id);
    }
    forall rider | rider in m'.activeRiders ensures RiderOk(m', rider) {
      assert rider != t.riderId ==> RiderOk(room, rider);
    }
    forall driver | driver in m'.activeDrivers ensures DriverOf(m', driver) {
      assert DriverOf(room, driver);
    }
    forall request | request in m'.requestToTrip ensures RequestOk(m', request) {
      assert request != t.requestId ==> RequestOk(room, request);
    }
  }

  lemma CreateSizeOk(m: Machine, room: Machine, m': Machine, t: Trip)
    requires SizeOk(m) && room.activeRiders == m.activeRiders && room.peak == m.peak
    requires |room.trips| < TRIP_CAPACITY || |room.trips| < m.peak || |room.trips| <= |m.activeRiders|
    requires t.id !in room.trips && t.riderId !in m.activeRiders
    requires m'.trips == room.trips[t.id := t] && m'.activeRiders == m.activeRiders[t.riderId := t.id]
    requires m'.peak == if m.peak < |m'.activeRiders| then |m'.activeRiders| else m.peak
    ensures SizeOk(m')
  {
    MapGrows(room.trips, t.id, t);
    MapGrows(m.activeRiders, t.riderId, t.id);
  }

  lemma AppendOrderOk(m: Machine, m': Machine, id: Id, t: Trip)
    requires OrderOk(m) && id !in m.trips && m'.order == m.order + [id] && m'.trips == m.trips[id := t]
    ensures OrderOk(m')
  {
    assert id !in m.order;
  }

  lemma CreateLogOk(m: Machine, room: Machine, added: Machine, t: Trip, e: Event)
    requires LogOk(m) && room.history == m.history && room.audit == m.audit && t.id !in m.trips
    requires Replay(m.history, t.id) == None
    requires forall id | id in room.trips :: id in m.trips && room.trips[id] == m.trips[id]
    requires added.history == m.history && added.audit == m.audit && added.trips == room.trips[t.id := t]
    requires e.tripId == t.id && e.from == Requested && e.to == Requested && t.status == Requested
    ensures LogOk(Record(added, e))
  {
    RecordLog(added, e);
    var h := Record(added, e).history;
    forall id | id in added.trips ensures Replay(h, id) == Some(added.trips[id].status) {
      if id != t.id {
        assert Replay(m.history, id) == Some(m.trips[id].status);
      }
    }
  }

  /** An idempotent replay: nothing changes, and the stored trip is found. */
  lemma ReplayFinds(m: Machine, requestId: Id, riderId: Id, pickup: Pos, dropoff: Pos, newId: Id, now: int)
    requires MachineOk(m)
    ensures
      var (m', res) := CreateTrip(m, requestId, riderId, pickup, dropoff, newId, now);
      && res != RecordMissing && (!res.Created? ==> m' == m)
      && (res.Success() && requestId in m.requestToTrip <==>
        TripByRequest(m, requestId).Some? && m.trips[m.requestToTrip[requestId]].riderId == riderId)
  {
    if requestId in m.requestToTrip {
      assert RequestOk(m, requestId);
    }
  }

  lemma CreatedOk(m: Machine, room: Machine, added: Machine, t: Trip)
    requires MachineOk(m) && room == MakeRoom(m) && t.id !in m.trips
    requires t.requestId !in m.requestToTrip && t.riderId !in m.activeRiders && t.driverId == None
    requires t.status == Requested
    requires added == Added(room, t)
    ensures IndexesOk(added) && OrderOk(added) && SizeOk(added)
  {
    MakeRoomIndexesOk(m);
    MakeRoomOrderOk(m);
    MakeRoomSize(m);
    CreateIndexesOk(room, added, t);
    AppendOrderOk(room, added, t.id, t);
    CreateSizeOk(m, room, added, t);
  }

  lemma RecordedOk(m: Machine, e: Event)
    requires IndexesOk(m) && OrderOk(m) && SizeOk(m) && LogOk(Record(m, e))
    ensures MachineOk(Record(m, e))
  {
    var r := Record(m, e);
    forall id | id in r.trips ensures TripOk(r, id) {
      assert TripOk(m, id);
    }
    forall rider | rider in r.activeRiders ensures RiderOk(r, rider) {
      assert RiderOk(m, rider);
    }
    forall driver | driver in r.activeDrivers ensures DriverOf(r, driver) {
      assert DriverOf(m, driver);
    }
    forall request | request in r.requestToTrip ensures RequestOk(r, request) {
      assert RequestOk(m, request);
    }
  }

  /** Under a fresh trip id creation keeps every index exact. */
  lemma CreateTripOk(m: Machine, requestId: Id, riderId: Id, pickup: Pos, dropoff: Pos, newId: Id, now: int)
    requires MachineOk(m) && newId !in m.trips && Replay(m.history, newId) == None
    ensures MachineOk(CreateTrip(m, requestId, riderId, pickup, dropoff, newId, now).0)
  {
    if CreateTrip(m, requestId, riderId, pickup, dropoff, newId, now).1.Created? {
      var room, t := MakeRoom(m), NewTrip(newId, requestId, riderId, pickup, dropoff, now);
      var added := Added(room, t);
      var e := Event(newId, requestId, Requested, Requested, Rider, now, None);
      CreatedOk(m, room, added, t);
      CreateLogOk(m, room, added, t, e);
      RecordedOk(added, e);
    } else {
      ReplayFinds(m, requestId, riderId, pickup, dropoff, newId, now);
    }
  }

  // ---- Transitions keep it ----

  /** Which trips a driver is on, once trip `t` has become `t'`. */
  function DriversAfter(drivers: map<Id, Id>, t: Trip, t': Trip): map<Id, Id> {
    var freed := if t.driverId.Some? then drivers - {t.driverId.value} else drivers;
    if Active(t') && t'.driverId.Some? then freed[t'.driverId.value := t.id] else freed
  }

  predicate SameTrip(t: Trip, t': Trip) {
    && t'.id == t.id && t'.requestId == t.requestId && t'.riderId == t.riderId
    && (t.driverId.Some? ==> t'.driverId == t.driverId || t'.driverId == None)
    && (t'.status == Requested || t'.status == Matching ==> t'.driverId == None)
    && (t'.status in {Matched, EnRoute, Arrived, InProgress, Completed} ==> t'.driverId.Some?)
  }

  /** What a move changes: one trip, the rider's entry when it ends, and the driver's entry. */
  lemma MovedShape(
      m: Machine, tripId: Id, to: TripStatus, actor: Role, reason: Option<string>, driver: Option<Id>, now: int)
    requires IndexesOk(m) && Transition(m, tripId, to, actor, reason, driver, now).1.Moved?
    ensures
      var m' := Transition(m, tripId, to, actor, reason, driver, now).0;
      && tripId in m.trips && Active(m.trips[tripId]) && tripId in m'.trips
      && m'.trips == m.trips[tripId := m'.trips[tripId]] && SameTrip(m.trips[tripId], m'.trips[tripId])
      && m'.trips[tripId].status == to
      && m'.requestToTrip == m.requestToTrip && m'.order == m.order && m'.peak == m.peak
      && m'.activeRiders == (if Terminal(to) then m.activeRiders - {m.trips[tripId].riderId} else m.activeRiders)
      && m'.activeDrivers == DriversAfter(m.activeDrivers, m.trips[tripId], m'.trips[tripId])
      && (m.trips[tripId].driverId == None && m'.trips[tripId].driverId.Some? ==>
        m'.trips[tripId].driverId.value !in m.activeDrivers)
  {
    assert TripOk(m, tripId);
    var t := m.trips[tripId];
    if t.driverId.Some? {
      var d := t.driverId.value;
      assert d in m.activeDrivers && m.activeDrivers[d] == t.id;
      assert (m.activeDrivers - {d})[d := t.id] == m.activeDrivers;
    } else if to == Matched && driver.value in m.activeDrivers {
      NotItsOwn(m, tripId, driver.value);
    }
  }

  lemma NotItsOwn(m: Machine, tripId: Id, driver: Id)
    requires IndexesOk(m) && tripId in m.trips && m.trips[tripId].driverId == None && driver in m.activeDrivers
    ensures m.activeDrivers[driver] != tripId
  {
    assert DriverOf(m, driver);
  }

  lemma MovedTripsOk(m: Machine, m': Machine, tripId: Id)
    requires IndexesOk(m) && tripId in m.trips && Active(m.trips[tripId]) && tripId in m'.trips
    requires m'.trips == m.trips[tripId := m'.trips[tripId]] && SameTrip(m.trips[tripId], m'.trips[tripId])
    requires m'.requestToTrip == m.requestToTrip
    requires m'.activeRiders == if Active(m'.trips[tripId]) then m.activeRiders
        else m.activeRiders - {m.trips[tripId].riderId}
    requires m'.activeDrivers == DriversAfter(m.activeDrivers, m.trips[tripId], m'.trips[tripId])
    requires m.trips[tripId].driverId == None && m'.trips[tripId].driverId.Some? ==>
        m'.trips[tripId].driverId.value !in m.activeDrivers
    ensures forall id | id in m'.trips :: TripOk(m', id)
    ensures forall driver | driver in m'.activeDrivers :: DriverOf(m', driver)
  {
    assert TripOk(m, tripId);
    forall id | id in m'.trips ensures TripOk(m', id) {
      assert TripOk(m, id);
    }
    forall driver | driver in m'.activeDrivers ensures DriverOf(m', driver) {
      assert driver in m.activeDrivers ==> DriverOf(m, driver);
    }
  }

  lemma MovedRidersOk(m: Machine, m': Machine, tripId: Id)
    requires IndexesOk(m) && tripId in m.trips && tripId in m'.trips
    requires m'.trips == m.trips[tripId := m'.trips[tripId]] && SameTrip(m.trips[tripId], m'.trips[tripId])
    requires m'.requestToTrip == m.requestToTrip
    requires m'.activeRiders == if Active(m'.trips[tripId]) then m.activeRiders
        else m.activeRiders - {m.trips[tripId].riderId}
    ensures forall rider | rider in m'.activeRiders :: RiderOk(m', rider)
    ensures forall request | request in m'.requestToTrip :: RequestOk(m', request)
  {
    forall rider | rider in m'.activeRiders ensures RiderOk(m', rider) {
      assert RiderOk(m, rider);
    }
    forall request | request in m'.requestToTrip ensures RequestOk(m', request) {
      assert RequestOk(m, request);
    }
  }

  lemma TransitionIndexesOk(
      m: Machine, tripId: Id, to: TripStatus, actor: Role, reason: Option<string>, driver: Option<Id>, now: int)
    requires IndexesOk(m)
    ensures IndexesOk(Transition(m, tripId, to, actor, reason, driver, now).0)
  {
    var (m', res) := Transition(m, tripId, to, actor, reason, driver, now);
    if res.Moved? {
      MovedShape(m, tripId, to, actor, reason, driver, now);
      MovedTripsOk(m, m', tripId);
      MovedRidersOk(m, m', tripId);
    }
  }

  lemma TransitionSizeOk(
      m: Machine, tripId: Id, to: TripStatus, actor: Role, reason: Option<string>, driver: Option<Id>, now: int)
    requires IndexesOk(m) && SizeOk(m)
    ensures SizeOk(Transition(m, tripId, to, actor, reason, driver, now).0)
  {
    var (m', res) := Transition(m, tripId, to, actor, reason, driver, now);
    if res.Moved? {
      MovedShape(m, tripId, to, actor, reason, driver, now);
      assert TripOk(m, tripId);
      MapKeeps(m.trips, tripId, m'.trips[tripId]);
      MapShrinks(m.activeRiders, m.trips[tripId].riderId);
    }
  }

  lemma LogMoves(m: Machine, trips: map<Id, Trip>, e: Event)
    requires LogOk(m) && Continues(m.history, e) && e.tripId in trips && trips[e.tripId].status == e.to
    requires m.trips.Keys == trips.Keys && forall id | id in trips && id != e.tripId :: trips[id] == m.trips[id]
    ensures LogOk(Record(m.(trips := trips), e))
  {
    RecordLog(m, e);
    var h := m.history + [e];
    forall id | id in trips ensures Replay(h, id) == Some(trips[id].status) {
      if id != e.tripId {
        assert Replay(m.history, id) == Some(m.trips[id].status);
      }
    }
  }

  lemma TransitionLogOk(
      m: Machine, tripId: Id, to: TripStatus, actor: Role, reason: Option<string>, driver: Option<Id>, now: int)
    requires IndexesOk(m) && LogOk(m)
    ensures LogOk(Transition(m, tripId, to, actor, reason, driver, now).0)
  {
    var (m', res) := Transition(m, tripId, to, actor, reason, driver, now);
    if res.Moved? {
      MovedShape(m, tripId, to, actor, reason, driver, now);
      assert TripOk(m, tripId);
      LogMoves(m, m'.trips, res.event);
    }
  }

  /** Whatever is asked of the machine, its maps, its size bound and its log stay exact. */
  lemma TransitionOk(
      m: Machine, tripId: Id, to: TripStatus, actor: Role, reason: Option<string>, driver: Option<Id>, now: int)
    requires MachineOk(m)
    ensures MachineOk(Transition(m, tripId, to, actor, reason, driver, now).0)
  {
    TransitionIndexesOk(m, tripId, to, actor, reason, driver, now);
    TransitionSizeOk(m, tripId, to, actor, reason, driver, now);
    TransitionLogOk(m, tripId, to, actor, reason, driver, now);
    if Transition(m, tripId, to, actor, reason, driver, now).1.Moved? {
      MovedShape(m, tripId, to, actor, reason, driver, now);
    }
  }

  // ---- What the maps and the log mean ----

  /** Riders on a trip and drivers on a trip correspond one to one with the trips under way. */
  lemma ActiveMapsAreBijections(m: Machine)
    requires IndexesOk(m)
    ensures m.activeRiders.Values == set id | id in m.trips && Active(m.trips[id])
    ensures m.activeDrivers.Values == set id | id in m.trips && Active(m.trips[id]) && m.trips[id].driverId.Some?
    ensures m.requestToTrip.Values == m.trips.Keys
    ensures forall a, b | a in m.activeRiders && b in m.activeRiders && m.activeRiders[a] == m.activeRiders[b] :: a == b
    ensures forall a, b | a in m.activeDrivers && b in m.activeDrivers && m.activeDrivers[a] == m.activeDrivers[b] ::
        a == b
    ensures forall a, b | a in m.requestToTrip && b in m.requestToTrip && m.requestToTrip[a] == m.requestToTrip[b] ::
        a == b
  {
    assert forall id | id in m.trips :: TripOk(m, id);
    assert forall rider | rider in m.activeRiders :: RiderOk(m, rider);
    assert forall driver | driver in m.activeDrivers :: DriverOf(m, driver);
    assert forall request | request in m.requestToTrip :: RequestOk(m, request);
  }

  lemma {:induction false} AfterBoarding(h: seq<Event>, i: nat, n: nat)
    requires Chained(h) && i < n <= |h| && h[i].to == InProgress
    ensures Replay(h[..n], h[i].tripId) in {Some(InProgress), Some(Completed)}
    decreases n
  {
    assert h[..n][..n - 1] == h[..n - 1];
    if i < n - 1 {
      AfterBoarding(h, i, n - 1);
      assert Continues(h[..n - 1], h[n - 1]);
    }
  }

  /** No trip is cancelled once its rider is on board. */
  lemma NeverCancelledOnBoard(m: Machine, i: nat, j: nat)
    requires MachineOk(m) && i < j < |m.history| && m.history[i].to == InProgress
    requires m.history[j].tripId == m.history[i].tripId
    ensures m.history[j].to == Completed
  {
    AfterBoarding(m.history, i, j);
    assert Continues(m.history[..j], m.history[j]);
  }

  function Rank(s: TripStatus): nat {
    match s
    case Requested => 0
    case Matching => 1
    case Matched => 2
    case EnRoute => 3
    case Arrived => 4
    case InProgress => 5
    case Completed => 6
    case Cancelled => 6
  }

  /** The moves of one trip in the log, its creation aside. */
  function Moves(h: seq<Event>, id: Id): nat {
    if h == [] then 0
    else Moves(h[..|h| - 1], id) + if h[|h| - 1].tripId == id && h[|h| - 1].from != h[|h| - 1].to then 1 else 0
  }

  /** Those of them that send a trip with a driver back to matching. */
  function Rematches(h: seq<Event>, id: Id): nat {
    if h == [] then 0
    else
      var e := h[|h| - 1];
      Rematches(h[..|h| - 1], id) + if e.tripId == id && e.from != Requested && e.to == Matching then 1 else 0
  }

  /** A trip moves at most six times, and at most four more for every rematch. */
  lemma {:induction false} MovesBounded(h: seq<Event>, id: Id)
    requires Chained(h)
    ensures Moves(h, id) <= 4 * Rematches(h, id) + match Replay(h, id) case None => 0 case Some(s) => Rank(s)
    ensures Moves(h, id) <= 4 * Rematches(h, id) + 6
  {
    if h != [] {
      var front := h[..|h| - 1];
      forall i | 0 <= i < |front| ensures Continues(front[..i], front[i]) {
        assert front[..i] == h[..i] && Continues(h[..i], h[i]);
      }
      MovesBounded(front, id);
      assert Continues(h[..|h| - 1], h[|h| - 1]);
    }
  }

  // ---- Milestones ----

  predicate Within(a: int, b: Option<int>, c: int) {
    b.Some? ==> a <= b.value <= c
  }

  function Or(a: Option<int>, b: int): int { if a.Some? then a.value else b }

  /** Which milestones a trip has, by its status, and that they came one after the other. */
  predicate StampsOk(t: Trip, now: int) {
    && t.createdAt <= now
    && (t.matchedAt.Some? <==> t.driverId.Some?)
    && (t.arrivedAt.Some? ==> t.status in {Arrived, InProgress, Completed, Cancelled} && t.matchedAt.Some?)
    && (t.status in {Arrived, InProgress, Completed} ==> t.arrivedAt.Some?)
    && (t.startedAt.Some? <==> t.status in {InProgress, Completed})
    && (t.completedAt.Some? <==> t.status == Completed)
    && (t.cancelledAt.Some? <==> t.status == Cancelled) && (t.cancelledBy.Some? <==> t.status == Cancelled)
    && (t.reason.Some? ==> t.status == Cancelled && t.reason.value != "")
    && Within(t.createdAt, t.matchedAt, now) && Within(Or(t.matchedAt, t.createdAt), t.arrivedAt, now)
    && Within(Or(t.arrivedAt, now), t.startedAt, now) && Within(Or(t.startedAt, now), t.completedAt, now)
    && Within(Or(t.arrivedAt, Or(t.matchedAt, t.createdAt)), t.cancelledAt, now)
  }

  ghost predicate AllStampsOk(m: Machine, now: int) {
    forall id {:trigger m.trips[id]} | id in m.trips :: StampsOk(m.trips[id], now)
  }

  lemma LaterStampsOk(t: Trip, before: int, now: int)
    requires StampsOk(t, before) && before <= now
    ensures StampsOk(t, now)
  {
  }

  /** While the clock does not run backwards, every trip has exactly the milestones of its status, in order. */
  lemma TransitionStampsOk(m: Machine, tripId: Id, to: TripStatus, actor: Role, reason: Option<string>,
    driver: Option<Id>, before: int, now: int)
    requires IndexesOk(m) && AllStampsOk(m, before) && before <= now
    ensures AllStampsOk(Transition(m, tripId, to, actor, reason, driver, now).0, now)
  {
    var (m', res) := Transition(m, tripId, to, actor, reason, driver, now);
    if res.Moved? {
      var t := m.trips[tripId];
      assert TripOk(m, tripId);
      LaterStampsOk(t, before, now);
      StampMoved(m, t, to, actor, reason, if driver.Some? then driver.value else t.id, now);
      MovedShape(m, tripId, to, actor, reason, driver, now);
    }
    forall id | id in m'.trips ensures StampsOk(m'.trips[id], now) {
      if res.Moved? && id == tripId {
      } else {
        LaterStampsOk(m.trips[id], before, now);
      }
    }
  }

  lemma StampMoved(m: Machine, t: Trip, to: TripStatus, actor: Role, reason: Option<string>, driver: Id, now: int)
    requires StampsOk(t, now) && Allowed(t.status, to)
    requires (t.status == Requested || t.status == Matching ==> t.driverId == None)
    requires t.status in {Matched, EnRoute, Arrived, InProgress, Completed} ==> t.driverId.Some?
    ensures StampsOk(Milestone(m, t, to, actor, reason, driver, now).1.(status := to), now)
  {
  }

  lemma CreateStampsOk(
      m: Machine, requestId: Id, riderId: Id, pickup: Pos, dropoff: Pos, newId: Id, before: int, now: int)
    requires AllStampsOk(m, before) && before <= now
    ensures AllStampsOk(CreateTrip(m, requestId, riderId, pickup, dropoff, newId, now).0, now)
  {
    var m' := CreateTrip(m, requestId, riderId, pickup, dropoff, newId, now).0;
    forall id | id in m'.trips ensures StampsOk(m'.trips[id], now) {
      if id in m.trips && m'.trips[id] == m.trips[id] {
        LaterStampsOk(m.trips[id], before, now);
      }
    }
  }
}
