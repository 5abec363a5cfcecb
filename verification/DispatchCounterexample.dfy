/** A run in which a rider who cancels a cancelled trip again puts somebody else's driver on the market. */
module DispatchCounterexample {
  import opened Geometry
  import opened Candidates
  import opened RegistryModel
  import opened TripModel
  import opened Dispatch
  import opened DispatchSafety
  import opened DispatchTheorems

  const SPOT := Pos(0.0, 0.0)
  const CONFIG := Config(1, 1.0, 15000)
  const NEAR: Metric := (p, q) => 0.0

  /** The clock stands still, and all places are equally near. */
  ghost predicate Still(s: State) { s.metric == NEAR && s.now == 0 }

  /** One driver, at the spot, and no request under way. */
  ghost predicate Idle(s: State, d: Id) {
    && Reachable(s) && Still(s) && s.loops == map[] && s.offers == map[] && s.reg.index == map[d := SPOT] && !Blank(d)
  }

  ghost predicate NewRide(s: State, r: Id, rider: Id, t: Id) {
    && r !in s.m.requestToTrip && rider !in s.m.activeRiders && Fresh(s, t) && |s.m.trips| < TRIP_CAPACITY
  }

  function OnlyTry(d: Id): Attempt { Attempt(d, 15000, 0, 0) }

  predicate OneLoop(s: State, r: Id, t: Id, pc: Pc) {
    s.loops.Keys == {r} && s.loops[r].tripId == t && s.loops[r].pc == pc
  }

  predicate LeasedTo(reg: Registry, r: Id, d: Id, expiresAt: int) {
    d in reg.drivers && reg.drivers[d].pos == SPOT && reg.drivers[d].lock == Some(Lock(r, expiresAt))
  }

  /** The steps from a request to its match, when the only driver accepts. */
  lemma Serve(s: State, r: Id, rider: Id, t: Id, d: Id) returns (s': State)
    requires Idle(s, d) && NewRide(s, r, rider, t)
    ensures Reachable(s') && s'.loops == map[] && s'.offers == map[] && Still(s')
    ensures t in s'.m.trips && s'.m.trips[t].status == Matched && s'.m.trips[t].driverId == Some(d)
    ensures s'.m.trips[t].riderId == rider
    ensures s'.m.trips[t].requestId == r && s'.m.trips.Keys == s.m.trips.Keys + {t} && forall x | x in s.m.trips ::
        s'.m.trips[x] == s.m.trips[x]
    ensures s'.m.requestToTrip == s.m.requestToTrip[r := t] && s'.m.activeRiders == s.m.activeRiders[rider := t]
    ensures s'.m.activeDrivers == s.m.activeDrivers[d := t] && s'.reg.index == map[] && s'.reg.region == s.reg.region
    ensures d in s'.reg.drivers && s'.reg.drivers[d].pos == SPOT && s'.reg.drivers[d].status == Busy
    ensures forall x | x != t :: Replay(s'.m.history, x) == Replay(s.m.history, x)
  {
    var s1 := Asked(s, r, rider, t, d);
    assert t in s1.m.trips && s1.m.trips[t].status == Matching;
    var s3 := Offered(s1, r, t, d);
    s' := Taken(s3, r, t, d);
  }

  lemma Asked(s: State, r: Id, rider: Id, t: Id, d: Id) returns (s': State)
    requires Idle(s, d) && NewRide(s, r, rider, t)
    ensures Reachable(s') && s'.reg == s.reg && s'.offers == s.offers && Still(s') && r !in s'.aborted
    ensures s'.loops == map[r := NewLoop(t, SPOT, CONFIG, s'.now)]
    ensures s'.m.trips == s.m.trips[t := NewTrip(t, r, rider, SPOT, SPOT, s.now).(status := Matching)]
    ensures s'.m.requestToTrip == s.m.requestToTrip[r := t] && s'.m.activeRiders == s.m.activeRiders[rider := t]
    ensures s'.m.activeDrivers == s.m.activeDrivers && forall x | x != t ::
        Replay(s'.m.history, x) == Replay(s.m.history, x)
  {
    var step := RequestStep(r, rider, SPOT, SPOT, CONFIG, t);
    ReachableStep(s, step);
    s' := Apply(s, step);
    var created := CreateTrip(s.m, r, rider, SPOT, SPOT, t, s.now).0;
    assert MakeRoom(s.m) == s.m;
    assert created.history == s.m.history + [Event(t, r, Requested, Requested, Rider, s.now, None)];
    HistoryElsewhere(s.m.history, created.history[|s.m.history|], t);
    HistoryElsewhere(created.history, Event(t, r, Requested, Matching, System, s.now, None), t);
  }

  lemma HistoryElsewhere(h: seq<Event>, e: Event, t: Id)
    requires e.tripId == t
    ensures forall x | x != t :: Replay(h + [e], x) == Replay(h, x)
  {
    assert (h + [e])[..|h|] == h;
  }

  lemma OnlyCandidate(index: map<Id, Pos>, q: Query, c: Candidate)
    requires index == map[c.id := c.At()] && q.k == 1 && c.distance == q.metric(q.from, c.At())
    requires c.distance <= q.radius
    ensures IsKnn(index, q, [c])
  {
    assert Ids([c]) == {c.id} by {
      IdsAppend([], c);
      assert [] + [c] == [c];
    }
  }

  lemma IndexedDriver(s: State, d: Id)
    requires Reachable(s) && s.reg.index == map[d := SPOT]
    ensures d in s.reg.drivers && s.reg.drivers[d].status == Available && s.reg.drivers[d].lock == None
    ensures s.reg.drivers[d].pos == SPOT
  {
    ReachableInv(s);
    assert DriverOk(s.reg, d);
  }

  lemma FreshLease(reg: Registry, d: Id, r: Id, ttlMs: int, now: int)
    requires d in reg.drivers && reg.drivers[d].status == Available && reg.drivers[d].lock == None
    ensures
      var (reg', ok) := AcquireLock(reg, d, r, ttlMs, now);
      ok && reg'.drivers == reg.drivers[d := reg.drivers[d].(lock := Some(Lock(r, now + ttlMs)))]
        && reg'.index == reg.index - {d}
  {
  }

  lemma Leased(s: State, r: Id, t: Id, d: Id) returns (s': State)
    requires Reachable(s) && Still(s) && s.reg.index == map[d := SPOT] && s.offers == map[]
    requires s.loops == map[r := NewLoop(t, SPOT, CONFIG, s.now)] && r !in s.aborted
    ensures Reachable(s') && s'.m == s.m && s'.offers == map[] && Still(s') && r !in s'.aborted && s'.reg.index == map[]
    ensures OneLoop(s', r, t, Locked(OnlyTry(d)))
    ensures LeasedTo(s'.reg, r, d, 18000)
    ensures s'.reg.region == s.reg.region
  {
    IndexedDriver(s, d);
    var c := Candidate(d, 0.0, 0.0, 0.0);
    OnlyCandidate(s.reg.index, QueryOf(s, s.loops[r]), c);
    var step := TopStep(r, [c], s.now);
    ReachableStep(s, step);
    s' := Apply(s, step);
    assert FirstUntried([c], {}) == Some(c) && s' == TryDriver(s, r, d, s.now);
    FreshLease(s.reg, d, r, 18000, s.now);
  }

  lemma Offered(s: State, r: Id, t: Id, d: Id) returns (s': State)
    requires Reachable(s) && Still(s) && s.reg.index == map[d := SPOT] && s.offers == map[]
    requires s.loops == map[r := NewLoop(t, SPOT, CONFIG, s.now)] && r !in s.aborted
    ensures Reachable(s') && s'.m == s.m && s'.offers == map[] && Still(s') && r !in s'.aborted && s'.reg.index == map[]
    ensures OneLoop(s', r, t, Resumed(OnlyTry(d), Accepted))
    ensures LeasedTo(s'.reg, r, d, 18000) && s'.reg.region == s.reg.region
  {
    var s1 := Leased(s, r, t, d);
    s' := Answered(s1, r, t, d);
  }

  lemma Answered(s: State, r: Id, t: Id, d: Id) returns (s': State)
    requires Reachable(s) && s.offers == map[] && Still(s) && r !in s.aborted
    requires OneLoop(s, r, t, Locked(OnlyTry(d)))
    ensures Reachable(s') && s'.m == s.m && s'.offers == map[] && Still(s') && r !in s'.aborted && s'.reg == s.reg
    ensures OneLoop(s', r, t, Resumed(OnlyTry(d), Accepted))
  {
    ReachableStep(s, PublishStep(r));
    var s1 := Apply(s, PublishStep(r));
    ReachableStep(s1, RespondStep(r, d, true));
    s' := Apply(s1, RespondStep(r, d, true));
  }

  lemma Taken(s: State, r: Id, t: Id, d: Id) returns (s': State)
    requires Reachable(s) && s.offers == map[] && Still(s) && r !in s.aborted && !Blank(d)
    requires OneLoop(s, r, t, Resumed(OnlyTry(d), Accepted))
    requires LeasedTo(s.reg, r, d, 18000)
    requires t in s.m.trips && s.m.trips[t].status == Matching && s.reg.index == map[]
    ensures Reachable(s') && s'.offers == map[] && Still(s') && s'.loops == map[] && s'.reg.index == map[]
    ensures t in s'.m.trips && s'.m.trips == s.m.trips[t := s'.m.trips[t]]
    ensures s'.m.trips[t] == s.m.trips[t].(status := Matched, driverId := Some(d), matchedAt := Some(0))
    ensures s'.m.requestToTrip == s.m.requestToTrip && s'.m.activeRiders == s.m.activeRiders
    ensures s'.m.activeDrivers == s.m.activeDrivers[d := t]
    ensures d in s'.reg.drivers && s'.reg.drivers[d].pos == SPOT && s'.reg.drivers[d].status == Busy
    ensures s'.reg.region == s.reg.region
    ensures forall x | x != t :: Replay(s'.m.history, x) == Replay(s.m.history, x)
  {
    TripOfLoop(s, t);
    Commits(s, r, t, d);
    ReachableStep(s, ResumeStep(r));
    var s1 := Apply(s, ResumeStep(r));
    CommittedFree(s1, r, t, d);
    Matches(s1, r, t, d);
    ReachableStep(s1, AssignStep(r));
    s' := Apply(s1, AssignStep(r));
  }

  lemma TripOfLoop(s: State, t: Id)
    requires Reachable(s) && t in s.m.trips
    ensures s.m.trips[t].id == t
  {
    ReachableInv(s);
    assert TripOk(s.m, t);
  }

  lemma Commits(s: State, r: Id, t: Id, d: Id)
    requires r !in s.aborted && s.now == 0 && OneLoop(s, r, t, Resumed(OnlyTry(d), Accepted))
    requires LeasedTo(s.reg, r, d, 18000)
    requires t in s.m.trips && s.m.trips[t].status == Matching
    ensures
      var s1 := Resume(s, r);
      && OneLoop(s1, r, t, Committed(OnlyTry(d))) && s1.m == s.m && s1.offers == s.offers && s1.now == 0
      && s1.metric == s.metric && s1.reg.index == s.reg.index && s1.reg.region == s.reg.region
      && d in s1.reg.drivers && s1.reg.drivers[d].pos == SPOT && s1.reg.drivers[d].status == Busy
  {
  }

  lemma CommittedFree(s: State, r: Id, t: Id, d: Id)
    requires Reachable(s) && OneLoop(s, r, t, Committed(OnlyTry(d)))
    ensures d !in s.m.activeDrivers
  {
    ReachableInv(s);
    assert LoopInv(s, r);
  }

  lemma Matches(s: State, r: Id, t: Id, d: Id)
    requires OneLoop(s, r, t, Committed(OnlyTry(d))) && d !in s.m.activeDrivers && !Blank(d) && s.now == 0
    requires t in s.m.trips && s.m.trips[t].status == Matching && s.m.trips[t].id == t
    ensures
      var s' := Assign(s, r);
      && s'.loops == map[] && s'.reg == s.reg && s'.offers == s.offers && s'.now == 0 && s'.metric == s.metric
      && s'.m.trips == s.m.trips[t := s.m.trips[t].(status := Matched, driverId := Some(d), matchedAt := Some(0))]
      && s'.m.requestToTrip == s.m.requestToTrip && s'.m.activeRiders == s.m.activeRiders
      && s'.m.activeDrivers == s.m.activeDrivers[d := t]
    ensures forall x | x != t :: Replay(Assign(s, r).m.history, x) == Replay(s.m.history, x)
  {
    HistoryElsewhere(s.m.history, Event(t, s.m.trips[t].requestId, Matching, Matched, System, s.now, Some(d)), t);
  }

  lemma AssignedDriver(s: State, t: Id, d: Id)
    requires Reachable(s) && t in s.m.trips && s.m.trips[t].status == Matched && s.m.trips[t].driverId == Some(d)
    ensures OffMarket(s.reg, d) && s.reg.drivers[d].lock == None && s.m.trips[t].id == t
  {
    ReachableInv(s);
    OwnedRecord(s, ByTrip(t), d);
    assert DriverOk(s.reg, d) && TripOk(s.m, t);
  }

  /** The rider cancels the matched trip: its driver is rightly free again. */
  lemma Dropped(s: State, r: Id, t: Id, d: Id) returns (s': State)
    requires Reachable(s) && s.loops == map[] && s.offers == map[] && Still(s) && InBox(s.reg.region, SPOT) && !Blank(d)
    requires t in s.m.trips && s.m.trips[t].status == Matched && s.m.trips[t].driverId == Some(d)
    requires s.m.requestToTrip == map[r := t]
    requires s.reg.index == map[] && d in s.reg.drivers && s.reg.drivers[d].pos == SPOT
    ensures Idle(s', d) && s'.m.trips.Keys == s.m.trips.Keys && s'.m.requestToTrip == s.m.requestToTrip
    ensures t in s'.m.trips && s'.m.trips[t].status == TripStatus.Cancelled && s'.m.trips[t].driverId == Some(d)
    ensures s'.m.activeRiders == s.m.activeRiders - {s.m.trips[t].riderId}
    ensures forall x | x != t :: Replay(s'.m.history, x) == Replay(s.m.history, x)
  {
    AssignedDriver(s, t, d);
    CancelFrees(s, r, t, d);
    var step := CancelStartStep(r, Rider, None);
    ReachableStep(s, step);
    s' := Apply(s, step);
  }

  lemma CancelFrees(s: State, r: Id, t: Id, d: Id)
    requires s.loops == map[] && s.offers == map[] && InBox(s.reg.region, SPOT) && s.reg.index == map[]
    requires t in s.m.trips && s.m.trips[t].status == Matched && s.m.trips[t].driverId == Some(d)
    requires s.m.trips[t].id == t
    requires r in s.m.requestToTrip && s.m.requestToTrip[r] == t
    requires d in s.reg.drivers && s.reg.drivers[d].pos == SPOT && s.reg.drivers[d].lock == None
    ensures
      var s' := CancelStart(s, r, Rider, None);
      && s'.loops == map[] && s'.offers == map[] && s'.metric == s.metric && s'.now == s.now
      && s'.reg.index == map[d := SPOT] && s'.m.trips.Keys == s.m.trips.Keys && s'.m.requestToTrip == s.m.requestToTrip
      && s'.m.trips[t].status == TripStatus.Cancelled && s'.m.trips[t].driverId == Some(d)
      && s'.m.activeRiders == s.m.activeRiders - {s.m.trips[t].riderId}
    ensures forall x | x != t :: Replay(CancelStart(s, r, Rider, None).m.history, x) == Replay(s.m.history, x)
  {
    var e := Event(t, s.m.trips[t].requestId, Matched, TripStatus.Cancelled, Rider, s.now, None);
    HistoryElsewhere(s.m.history, e, t);
  }

  const D := Id("d")

  lemma OneDriver() returns (s: State)
    ensures Idle(s, D) && s.m == EMPTY && InBox(s.reg.region, SPOT)
  {
    var reg := Registry(Box(0.0, 1.0, 0.0, 1.0), map[], map[], []);
    s := Joined(reg);
    FirstRegistered(reg);
    assert !IsSpace(D.name[0]);
  }

  /** From the empty state over a region, one driver registers. */
  lemma Joined(reg: Registry) returns (s: State)
    requires reg.drivers == map[] && reg.index == map[] && reg.sent == []
    ensures Reachable(s)
    ensures s == State(NEAR, RegisterDriver(reg, D, SPOT, Available, 0), EMPTY, map[], map[], {}, 0)
  {
    var s0 := State(NEAR, reg, EMPTY, map[], map[], {}, 0);
    InitReachable(s0);
    ReachableStep(s0, RegisterStep(D, SPOT, Available));
    s := Apply(s0, RegisterStep(D, SPOT, Available));
  }

  lemma FirstRegistered(reg: Registry)
    requires reg == Registry(Box(0.0, 1.0, 0.0, 1.0), map[], map[], [])
    ensures RegisterDriver(reg, D, SPOT, Available, 0).index == map[D := SPOT]
    ensures RegisterDriver(reg, D, SPOT, Available, 0).region == reg.region
  {
  }

  /** A first ride that is matched and then cancelled. */
  lemma FirstRide(r: Id, rider: Id, t: Id) returns (s: State)
    ensures Idle(s, D) && s.m.trips.Keys == {t} && s.m.trips[t].status == TripStatus.Cancelled
    ensures s.m.trips[t].driverId == Some(D)
    ensures s.m.requestToTrip == map[r := t] && s.m.activeRiders == map[] && forall x | x != t ::
        Replay(s.m.history, x) == None
  {
    var s1 := OneDriver();
    var s2 := Serve(s1, r, rider, t, D);
    assert s2.m.requestToTrip == map[r := t];
    s := Dropped(s2, r, t, D);
  }

  /** Two rides with one driver; then the first rider cancels once more. */
  lemma RepeatedCancelIsUnsafe() returns (s: State, step: Step)
    ensures Reachable(s) && Enabled(s, step) && step.CancelStartStep? && step.actor == Rider
    ensures !Safe(Apply(s, step))
  {
    var r1, t1, t2 := Id("r1"), Id("t1"), Id("t2");
    var s1 := FirstRide(r1, Id("a"), t1);
    assert |s1.m.trips.Keys| == 1;
    s := Serve(s1, Id("r2"), Id("b"), t2, D);
    step := CancelStartStep(r1, Rider, None);
    CancelledAgain(s, r1, t1);
  }

  lemma CancelledAgain(s: State, r: Id, t: Id)
    requires Reachable(s) && TripByRequest(s.m, r) == Some(t) && s.m.trips[t].status == TripStatus.Cancelled
    requires s.m.trips[t].driverId == Some(D) && D in s.m.activeDrivers
    ensures !Safe(CancelStart(s, r, Rider, None))
  {
    ReachableInv(s);
    CarelessCancel(s, r, Rider, None);
  }

  /** A driver-role cancellation right after the request: the machine refuses it, the loop stops all the same,
      and the trip waits without a loop, which a rematch will not start. */
  lemma DriverCancelStrands() returns (s: State, step: Step, end: State, t: Id)
    ensures Reachable(s) && Enabled(s, step) && Careful(s, step) && Strands(s, step) && !AllAttended(Apply(s, step))
    ensures Reachable(end) && t in end.m.trips && end.m.trips[t].status == Matching && end.loops == map[]
    ensures forall reason, config :: Rematch(end, t, reason, config) == end
  {
    var r := Id("r");
    t := Id("t");
    var s1 := OneDriver();
    s := Asked(s1, r, Id("a"), t, D);
    step := CancelStartStep(r, Driving, None);
    RefusedButStopped(s, r, t);
    ReachableStep(s, step);
    end := LoopGone(Apply(s, step), r, t);
  }

  lemma RefusedButStopped(s: State, r: Id, t: Id)
    requires t in s.m.trips && s.m.trips[t].status == Matching && s.m.trips[t].requestId == r && s.offers == map[]
    requires r in s.m.requestToTrip && s.m.requestToTrip[r] == t && s.m.trips[t].driverId == None
    requires r in s.loops && s.loops[r].pc == Ready
    ensures
      var s2 := CancelStart(s, r, Driving, None);
      && Strands(s, CancelStartStep(r, Driving, None)) && Careful(s, CancelStartStep(r, Driving, None))
      && s2 == s.(aborted := s.aborted + {r}) && !AllAttended(s2)
  {
    assert !Attended(CancelStart(s, r, Driving, None), t);
  }

  lemma LoopGone(s: State, r: Id, t: Id) returns (end: State)
    requires Reachable(s) && r in s.aborted && s.loops.Keys == {r} && s.loops[r].pc == Ready
    requires s.loops[r].i < s.loops[r].config.k
    requires t in s.m.trips && s.m.trips[t].status == Matching
    ensures Reachable(end) && t in end.m.trips && end.m.trips[t].status == Matching && end.loops == map[]
    ensures forall reason, config :: Rematch(end, t, reason, config) == end
  {
    ReachableStep(s, TopStep(r, [], s.now));
    end := Apply(s, TopStep(r, [], s.now));
  }
}
